/**
 * Dispatches a delivered page to the batch and per-event methods of a reactor, and settles each partition on its own.
 * The claim is acknowledgement soundness: nothing is acknowledged without having been handled.
 */
module ReactorPageDispatcher {
  import opened Wrappers
  import opened PartitionSettlement
  import opened EventBatches

  datatype DeliveredPartition = DeliveredPartition(partition: string, events: seq<AppendedEvent>)

  /** A delivery: a page of partitions, or one partition in the legacy fields when there are no partitions. */
  datatype EventsToObserve = EventsToObserve(
    partition: string, events: seq<AppendedEvent>, deliveryId: nat, partitions: seq<DeliveredPartition>)

  datatype ReactorEventTypeEntry = ReactorEventTypeEntry(
    id: string, methodName: Option<string>, replayMethodName: Option<string>)

  /** A batch method with the event types it observes and what its one call in this delivery does. */
  datatype BatchMethod = BatchMethod(methodName: string, eventTypes: set<string>, run: BatchRun)

  /** The methods of an instance that must not run again on replay. */
  type OnceOnly = set<string>

  datatype ReactorObservationTarget = ReactorObservationTarget(
    entries: seq<ReactorEventTypeEntry>, batchMethods: seq<BatchMethod>, onceOnly: OnceOnly, hasActivator: bool)

  /**
   * Activating an instance for a delivery: it fails before any handler runs, or it succeeds and completing it may fail.
   */
  datatype Activation = ActivationFails(error: string) | Activates(onceOnly: OnceOnly, completionError: Option<string>)

  datatype Environment = Environment(notificationError: Option<seq<string>>, activation: Activation)

  datatype Selection = Selection(methodName: Option<string>, skipReplay: bool)

  datatype PageEvent = PageEvent(partition: string, event: AppendedEvent)

  /** A handler that finished for an event, per event or as part of the n-th batch method. */
  datatype Invocation = PerEvent(partition: string, event: AppendedEvent) | InBatch(partition: string,
    event: AppendedEvent, methodIndex: nat)

  datatype PartitionResult = PartitionResult(
    partition: string, state: ObservationState, lastSuccessfulObservation: nat,
    exceptionMessages: seq<string>, retryAfterMilliseconds: nat)

  /** A page result carries partitions and no state of its own; a legacy result is the other way round. */
  datatype ReactorResult = ReactorResult(
    partition: string, state: Option<ObservationState>, lastSuccessfulObservation: nat,
    exceptionMessages: seq<string>, deliveryId: nat, partitions: seq<PartitionResult>)

  predicate IsPage(message: EventsToObserve) {
    |message.partitions| > 0
  }

  function PartitionsOf(message: EventsToObserve): seq<DeliveredPartition> {
    if IsPage(message) then message.partitions else [DeliveredPartition(message.partition, message.events)]
  }

  function FindEntry(entries: seq<ReactorEventTypeEntry>, id: string): Option<ReactorEventTypeEntry> {
    if entries == [] then None
    else if entries[0].id == id then Some(entries[0])
    else FindEntry(entries[1..], id)
  }

  function SelectHandler(entries: seq<ReactorEventTypeEntry>, onceOnly: OnceOnly, e: AppendedEvent): Option<Selection> {
    match FindEntry(entries, e.eventTypeId)
    case None => None
    case Some(entry) =>
      var methodName := if e.isReplay then entry.replayMethodName.OrElse(entry.methodName) else entry.methodName;
      Some(Selection(methodName, e.isReplay && methodName.Some? && methodName.value != ""
        && methodName.value in onceOnly))
  }

  /** Whether a per-event handler is selected for the event and not skipped for replay. */
  predicate HasHandler(entries: seq<ReactorEventTypeEntry>, onceOnly: OnceOnly, e: AppendedEvent) {
    var selection := SelectHandler(entries, onceOnly, e);
    selection.Some? && selection.value.methodName.GetOr("") != "" && !selection.value.skipReplay
  }

  predicate IsBatchEventType(methods: seq<BatchMethod>, id: string) {
    exists m :: 0 <= m < |methods| && id in methods[m].eventTypes
  }

  /** Whether the event goes to a per-event handler. */
  predicate RunsPerEvent(target: ReactorObservationTarget, onceOnly: OnceOnly, e: AppendedEvent) {
    e.eventTypeId != "" && !IsBatchEventType(target.batchMethods, e.eventTypeId)
      && HasHandler(target.entries, onceOnly, e)
  }

  function ErrorOf(e: AppendedEvent): Option<string> {
    e.conversionError.OrElse(e.handlingError)
  }

  /** Every event of a page with its partition, in delivery order. */
  function Delivered(partitions: seq<DeliveredPartition>): seq<PageEvent> {
    if partitions == [] then []
    else
      var last := partitions[|partitions| - 1];
      Delivered(partitions[..|partitions| - 1]) + InPartition(last.partition, last.events)
  }

  function InPartition(partition: string, events: seq<AppendedEvent>): seq<PageEvent> {
    if events == [] then []
    else InPartition(partition, events[..|events| - 1]) + [PageEvent(partition, events[|events| - 1])]
  }

  /** The converted events bound for batch methods, in delivery order. */
  function BatchEvents(methods: seq<BatchMethod>, events: seq<PageEvent>): seq<PageEvent> {
    if events == [] then []
    else
      var earlier, x := BatchEvents(methods, events[..|events| - 1]), events[|events| - 1];
      if IsBatchEventType(methods, x.event.eventTypeId) && x.event.conversionError.None? then earlier + [x] else earlier
  }

  function ConversionProblems(methods: seq<BatchMethod>, events: seq<PageEvent>): seq<PartitionProblem> {
    if events == [] then []
    else
      var earlier, x := ConversionProblems(methods, events[..|events| - 1]), events[|events| - 1];
      if IsBatchEventType(methods, x.event.eventTypeId) && x.event.conversionError.Some?
      then earlier + [FailedAt(x.partition, x.event.sequenceNumber, x.event.conversionError.value)]
      else earlier
  }

  /** `sort` by sequence number: an element goes after those it is not smaller than. */
  function Insert(sorted: seq<PageEvent>, x: PageEvent): seq<PageEvent> {
    if sorted == [] || sorted[|sorted| - 1].event.sequenceNumber <= x.event.sequenceNumber then sorted + [x]
    else Insert(sorted[..|sorted| - 1], x) + [sorted[|sorted| - 1]]
  }

  function SortBySequence(events: seq<PageEvent>): seq<PageEvent> {
    if events == [] then [] else Insert(SortBySequence(events[..|events| - 1]), events[|events| - 1])
  }

  function ObservedBy(batchMethod: BatchMethod, events: seq<PageEvent>): seq<PageEvent> {
    if events == [] then []
    else
      var earlier, x := ObservedBy(batchMethod, events[..|events| - 1]), events[|events| - 1];
      if x.event.eventTypeId in batchMethod.eventTypes then earlier + [x] else earlier
  }

  function EventsOf(observed: seq<PageEvent>): seq<AppendedEvent> {
    seq(|observed|, i requires 0 <= i < |observed| => observed[i].event)
  }

  /** The partition of each event source in a batch; a later event of the source wins. */
  function PartitionsBySource(observed: seq<PageEvent>): map<string, string> {
    if observed == [] then map[]
    else
      var x := observed[|observed| - 1];
      PartitionsBySource(observed[..|observed| - 1])[x.event.eventSourceId := x.partition]
  }

  function ProblemOf(partitionOf: map<string, string>, outcome: BatchOutcome): PartitionProblem {
    var partition := if outcome.partition in partitionOf then partitionOf[outcome.partition] else outcome.partition;
    if outcome.deferred
    then PartitionProblem(partition, outcome.at, Deferred, [], outcome.retryAfterMilliseconds)
    else FailedAt(partition, outcome.at, outcome.error.GetOr("The partition failed in the batch: " + outcome.partition))
  }

  function ProblemsOf(partitionOf: map<string, string>, outcomes: seq<BatchOutcome>): seq<PartitionProblem> {
    seq(|outcomes|, i requires 0 <= i < |outcomes| => ProblemOf(partitionOf, outcomes[i]))
  }

  /** Fails every partition of a batch at its first event in the batch. */
  function FailAll(observed: seq<PageEvent>, error: string): seq<PartitionProblem> {
    if observed == [] then []
    else
      var earlier, x := FailAll(observed[..|observed| - 1], error), observed[|observed| - 1];
      if exists q :: q in earlier && q.partition == x.partition then earlier
      else earlier + [FailedAt(x.partition, x.event.sequenceNumber, error)]
  }

  function BatchProblems(batchMethod: BatchMethod, observed: seq<PageEvent>, canDefer: bool): seq<PartitionProblem> {
    match batchMethod.run.ending
    case Returned =>
      ProblemsOf(PartitionsBySource(observed), OutcomesOf(EventsOf(observed), canDefer, batchMethod.run.reports))
    case ReturnedAValue(error) => FailAll(observed, error)
    case Threw(error) => FailAll(observed, error)
  }

  /**
   * A batch method finished an event when it returned normally and reported the event's source neither as a whole nor
   * from that event or an earlier one: that is what returning normally promises.
   */
  predicate FinishedInBatch(batchMethod: BatchMethod, e: AppendedEvent) {
    && batchMethod.run.ending.Returned?
    && forall report :: report in batchMethod.run.reports && report.target.eventSourceId == e.eventSourceId ==>
         report.target.ByEvent? && e.sequenceNumber < report.target.sequenceNumber
  }

  function FirstSequenceNumberOf(partition: DeliveredPartition): nat {
    if partition.events == [] then 0 else partition.events[0].sequenceNumber
  }

  function ActivationFailure(partition: DeliveredPartition, problems: seq<PartitionProblem>, error: string)
    : PartitionProblem
  {
    var reported := Earliest(partition.partition, problems);
    PartitionProblem(partition.partition, FirstSequenceNumberOf(partition), Failed,
                     (if reported.Some? then reported.value.exceptionMessages else []) + [error], 0.0)
  }

  function SequenceNumbersOf(events: seq<AppendedEvent>): seq<nat> {
    seq(|events|, i requires 0 <= i < |events| => events[i].sequenceNumber)
  }

  function Settle(partitions: seq<DeliveredPartition>, problems: seq<PartitionProblem>): seq<PartitionOutcome> {
    seq(|partitions|, i requires 0 <= i < |partitions| =>
      SettlePartition(partitions[i].partition, SequenceNumbersOf(partitions[i].events), problems))
  }

  function ToPartitionResult(outcome: PartitionOutcome): PartitionResult {
    PartitionResult(outcome.partition, outcome.state, outcome.lastSuccessfulObservation, outcome.exceptionMessages,
                    NotNegative(Round(outcome.retryAfterMilliseconds)))
  }

  function ToReactorResult(message: EventsToObserve, outcomes: seq<PartitionOutcome>): ReactorResult
    requires outcomes != []
  {
    if IsPage(message) then
      ReactorResult("", None, 0, [], message.deliveryId,
                    seq(|outcomes|, i requires 0 <= i < |outcomes| => ToPartitionResult(outcomes[i])))
    else
      ReactorResult(message.partition, Some(if outcomes[0].state == Deferred then Failed else outcomes[0].state),
                    outcomes[0].lastSuccessfulObservation, outcomes[0].exceptionMessages, message.deliveryId, [])
  }

  // ----- what is claimed -----

  /** The sequence numbers of each partition ascend, as the kernel delivers them. */
  ghost predicate DeliveredInSequence(partitions: seq<DeliveredPartition>) {
    forall i :: 0 <= i < |partitions| ==> InSequence(partitions[i].events)
  }

  /** Each event source lies in one partition. */
  ghost predicate SourcesTogether(events: seq<PageEvent>) {
    forall x, y :: x in events && y in events && x.event.eventSourceId == y.event.eventSourceId ==>
      x.partition == y.partition
  }

  /**
   * Nothing is left to do for an event: no handler is selected, it is skipped for replay, or every handler of it
   * finished.
   */
  ghost predicate Settled(
    target: ReactorObservationTarget, onceOnly: OnceOnly, partition: string, e: AppendedEvent,
    finished: set<Invocation>)
  {
    if IsBatchEventType(target.batchMethods, e.eventTypeId) then
      forall m :: 0 <= m < |target.batchMethods| && e.eventTypeId in target.batchMethods[m].eventTypes
                  ==> InBatch(partition, e, m) in finished
    else
      RunsPerEvent(target, onceOnly, e) ==> PerEvent(partition, e) in finished
  }

  /** The recorded invocations are real: the handler ran on the event and reported nothing against it. */
  ghost predicate Genuine(
    target: ReactorObservationTarget, onceOnly: OnceOnly, partitions: seq<DeliveredPartition>,
    finished: set<Invocation>)
  {
    forall invocation :: invocation in finished ==>
                           && PageEvent(invocation.partition, invocation.event) in Delivered(partitions)
                           && match invocation
                              case PerEvent(_, e) => RunsPerEvent(target, onceOnly, e) && ErrorOf(e).None?
                              case InBatch(_, e, m) =>
                                && m < |target.batchMethods| && e.eventTypeId in target.batchMethods[m].eventTypes
                                   && e.conversionError.None?
                                && FinishedInBatch(target.batchMethods[m], e)
  }

  /** The events the m-th batch method is called with. */
  function Batch(target: ReactorObservationTarget, partitions: seq<DeliveredPartition>, m: nat): seq<PageEvent>
    requires m < |target.batchMethods|
  {
    ObservedBy(target.batchMethods[m], SortBySequence(BatchEvents(target.batchMethods, Delivered(partitions))))
  }

  /** Each event source that a batch holds lies in one partition, as far as that batch goes. */
  ghost predicate BatchesTogether(target: ReactorObservationTarget, partitions: seq<DeliveredPartition>) {
    forall m :: 0 <= m < |target.batchMethods| ==> SourcesTogether(Batch(target, partitions, m))
  }

  /** The partition of an event is the one a batch has for its source: that of the source's last event. */
  predicate InLastPartition(observed: seq<PageEvent>, x: PageEvent) {
    && x.event.eventSourceId in PartitionsBySource(observed)
    && PartitionsBySource(observed)[x.event.eventSourceId] == x.partition
  }

  /** What goes wrong on a page whatever the batch methods do: events that do not convert, and failing handlers. */
  function OwnProblems(target: ReactorObservationTarget, onceOnly: OnceOnly, partitions: seq<DeliveredPartition>)
    : seq<PartitionProblem>
  {
    ConversionProblems(target.batchMethods, Delivered(partitions)) + PerEventProblems(target, onceOnly, partitions)
  }

  /**
   * Every event a batch holds lies in the partition the batch has for its source, or is blocked by the page's own
   * failures.
   */
  ghost predicate BatchesCovered(
    target: ReactorObservationTarget, onceOnly: OnceOnly, partitions: seq<DeliveredPartition>)
  {
    forall m, x :: 0 <= m < |target.batchMethods| && x in Batch(target, partitions, m) ==>
      || InLastPartition(Batch(target, partitions, m), x)
      || Blocked(x.partition, x.event.sequenceNumber, OwnProblems(target, onceOnly, partitions))
  }

  /** Nothing goes wrong and no batch method reports anything. */
  ghost predicate Quiet(target: ReactorObservationTarget, partitions: seq<DeliveredPartition>) {
    && (forall x :: x in Delivered(partitions) ==> ErrorOf(x.event).None?)
    && (forall m :: 0 <= m < |target.batchMethods| ==> target.batchMethods[m].run == BatchRun([], Returned))
  }

  // ----- handlers and pages by their declarations -----

  /** The first entry of an event type. */
  ghost predicate IsEntryFor(entries: seq<ReactorEventTypeEntry>, id: string, k: int) {
    0 <= k < |entries| && entries[k].id == id && forall j :: 0 <= j < k ==> entries[j].id != id
  }

  /** The method an entry names for an event: on replay its replay method, if it has one. */
  ghost function MethodFor(entry: ReactorEventTypeEntry, e: AppendedEvent): Option<string> {
    if e.isReplay && entry.replayMethodName.Some? then entry.replayMethodName else entry.methodName
  }

  /**
   * An event has a handler exactly when the first entry of its type names a method for it, and on replay the instance
   * does not mark that method as once-only.
   */
  lemma {:induction false} HandlerByEntry(entries: seq<ReactorEventTypeEntry>, onceOnly: OnceOnly, e: AppendedEvent)
    ensures HasHandler(entries, onceOnly, e) <==>
            exists k :: && IsEntryFor(entries, e.eventTypeId, k)
                        && MethodFor(entries[k], e).Some? && |MethodFor(entries[k], e).value| > 0
                        && !(e.isReplay && MethodFor(entries[k], e).value in onceOnly)
  {
    FirstEntry(entries, e.eventTypeId);
    forall j, k | IsEntryFor(entries, e.eventTypeId, j) && IsEntryFor(entries, e.eventTypeId, k) ensures j == k {}
  }

  lemma {:induction false} FirstEntry(entries: seq<ReactorEventTypeEntry>, id: string)
    ensures match FindEntry(entries, id)
            case None => forall k :: !IsEntryFor(entries, id, k)
            case Some(entry) => exists k :: IsEntryFor(entries, id, k) && entries[k] == entry
  {
    if entries != [] {
      var rest := entries[1..];
      FirstEntry(rest, id);
      if entries[0].id == id {
        assert IsEntryFor(entries, id, 0);
      } else {
        forall k ensures IsEntryFor(entries, id, k) <==> IsEntryFor(rest, id, k - 1) {
          assert forall j :: 0 < j < |entries| ==> entries[j] == rest[j - 1];
          if IsEntryFor(rest, id, k - 1) {
            assert forall j :: 0 <= j < k ==> entries[j].id != id;
          }
        }
        if FindEntry(entries, id).Some? {
          var k :| IsEntryFor(rest, id, k) && rest[k] == FindEntry(entries, id).value;
          assert IsEntryFor(entries, id, k + 1);
        }
      }
    }
  }

  /** Which events go to a per-event handler, and what they fail with. */
  lemma {:induction false} PerEventByDeclaration(
    target: ReactorObservationTarget, onceOnly: OnceOnly, e: AppendedEvent)
    ensures RunsPerEvent(target, onceOnly, e) <==>
            && |e.eventTypeId| > 0 && HasHandler(target.entries, onceOnly, e)
            && forall m :: 0 <= m < |target.batchMethods| ==> e.eventTypeId !in target.batchMethods[m].eventTypes
    ensures ErrorOf(e) == if e.conversionError.Some? then e.conversionError else e.handlingError
  {
  }

  /** A message with partitions is a page of them, and one without is the one partition of its legacy fields. */
  lemma {:induction false} PageOrLegacy(message: EventsToObserve)
    ensures IsPage(message) <==> message.partitions != []
    ensures PartitionsOf(message) == if message.partitions != [] then message.partitions
                                       else [DeliveredPartition(message.partition, message.events)]
  {
  }

  // ----- the sequences involved -----

  lemma {:induction false} InPartitionMembers(partition: string, events: seq<AppendedEvent>, x: PageEvent)
    ensures x in InPartition(partition, events) <==> x.partition == partition && x.event in events
  {
    if events != [] {
      var rest, last := events[..|events| - 1], events[|events| - 1];
      InPartitionMembers(partition, rest, x);
      assert events == rest + [last];
    }
  }

  lemma {:induction false} DeliveredMembers(partitions: seq<DeliveredPartition>, x: PageEvent)
    ensures x in Delivered(partitions) <==>
            exists i :: 0 <= i < |partitions| && partitions[i].partition == x.partition
                        && x.event in partitions[i].events
  {
    if partitions != [] {
      var rest, last := partitions[..|partitions| - 1], partitions[|partitions| - 1];
      DeliveredMembers(rest, x);
      InPartitionMembers(last.partition, last.events, x);
      if x in Delivered(rest) {
        var i :| 0 <= i < |rest| && rest[i].partition == x.partition && x.event in rest[i].events;
        assert partitions[i] == rest[i];
      }
      if i :| 0 <= i < |partitions| && partitions[i].partition == x.partition && x.event in partitions[i].events {
        if i < |rest| {
          assert rest[i] == partitions[i];
        }
      }
    }
  }

  lemma {:induction false} BatchEventsMembers(methods: seq<BatchMethod>, events: seq<PageEvent>, x: PageEvent)
    ensures x in BatchEvents(methods, events) <==>
            x in events && IsBatchEventType(methods, x.event.eventTypeId) && x.event.conversionError.None?
  {
    if events != [] {
      var rest, last := events[..|events| - 1], events[|events| - 1];
      BatchEventsMembers(methods, rest, x);
      assert events == rest + [last];
    }
  }

  lemma {:induction false} ConversionProblemsMembers(
    methods: seq<BatchMethod>, events: seq<PageEvent>, q: PartitionProblem)
    ensures q in ConversionProblems(methods, events) <==>
            exists x :: x in events && IsBatchEventType(methods, x.event.eventTypeId) && x.event.conversionError.Some?
                        && q == FailedAt(x.partition, x.event.sequenceNumber, x.event.conversionError.value)
  {
    if events != [] {
      var rest, last := events[..|events| - 1], events[|events| - 1];
      ConversionProblemsMembers(methods, rest, q);
      assert events == rest + [last] && last in events;
      forall x | x in events ensures x in rest || x == last {}
    }
  }

  /** In sequence, read from the end: every earlier element is not after the last one. */
  ghost predicate Ordered(events: seq<PageEvent>) {
    events != [] ==>
      var rest := events[..|events| - 1];
      && Ordered(rest)
      && forall x :: x in rest ==> x.event.sequenceNumber <= events[|events| - 1].event.sequenceNumber
  }

  lemma {:induction false} OrderedIsInSequence(events: seq<PageEvent>)
    requires Ordered(events)
    ensures InSequence(EventsOf(events))
  {
    if events != [] {
      var n := |events|;
      var rest := events[..n - 1];
      OrderedIsInSequence(rest);
      forall i, j | 0 <= i < j < n ensures EventsOf(events)[i].sequenceNumber <= EventsOf(events)[j].sequenceNumber {
        if j < n - 1 {
          assert EventsOf(rest)[i].sequenceNumber <= EventsOf(rest)[j].sequenceNumber;
        } else {
          assert rest[i] in rest;
        }
      }
    }
  }

  lemma {:induction false} InsertAdds(sorted: seq<PageEvent>, x: PageEvent)
    ensures multiset(Insert(sorted, x)) == multiset(sorted) + multiset{x}
  {
    if sorted != [] {
      var rest, last := sorted[..|sorted| - 1], sorted[|sorted| - 1];
      InsertAdds(rest, x);
      assert sorted == rest + [last];
    }
  }

  lemma {:induction false} InsertMembers(sorted: seq<PageEvent>, x: PageEvent)
    ensures forall y :: y in Insert(sorted, x) <==> y in sorted || y == x
  {
    hide Insert;
    InsertAdds(sorted, x);
    forall y ensures y in Insert(sorted, x) <==> y in sorted || y == x {
      assert y in Insert(sorted, x) <==> y in multiset(Insert(sorted, x));
      assert y in sorted <==> y in multiset(sorted);
    }
  }

  lemma {:induction false} InsertKeepsOrder(sorted: seq<PageEvent>, x: PageEvent)
    requires Ordered(sorted)
    ensures Ordered(Insert(sorted, x))
  {
    if sorted == [] {
      assert Insert(sorted, x)[..0] == [];
    } else {
      var n := |sorted|;
      var rest, last := sorted[..n - 1], sorted[n - 1];
      if last.event.sequenceNumber <= x.event.sequenceNumber {
        assert (sorted + [x])[..n] == sorted;
        assert sorted == rest + [last];
      } else {
        InsertKeepsOrder(rest, x);
        InsertMembers(rest, x);
        var inserted := Insert(rest, x);
        assert (inserted + [last])[..|inserted|] == inserted;
      }
    }
  }

  lemma {:induction false} SortStep(events: seq<PageEvent>)
    ensures Ordered([]) && SortBySequence([]) == []
    ensures events != [] ==>
            SortBySequence(events) == Insert(SortBySequence(events[..|events| - 1]), events[|events| - 1])
  {
  }

  lemma {:induction false} SortIsSortedPermutation(events: seq<PageEvent>)
    ensures Ordered(SortBySequence(events))
    ensures multiset(SortBySequence(events)) == multiset(events)
  {
    hide Ordered, Insert, SortBySequence;
    SortStep(events);
    if events != [] {
      var rest, last := events[..|events| - 1], events[|events| - 1];
      SortIsSortedPermutation(rest);
      InsertKeepsOrder(SortBySequence(rest), last);
      InsertAdds(SortBySequence(rest), last);
      assert events == rest + [last];
    }
  }

  lemma {:induction false} SortMembers(events: seq<PageEvent>, x: PageEvent)
    ensures x in SortBySequence(events) <==> x in events
  {
    SortIsSortedPermutation(events);
    assert x in SortBySequence(events) <==> x in multiset(SortBySequence(events));
    assert x in events <==> x in multiset(events);
  }

  lemma {:induction false} ObservedByKeepsOrder(batchMethod: BatchMethod, events: seq<PageEvent>)
    requires Ordered(events)
    ensures Ordered(ObservedBy(batchMethod, events))
    ensures forall x :: x in ObservedBy(batchMethod, events) <==>
            x in events && x.event.eventTypeId in batchMethod.eventTypes
  {
    if events != [] {
      var rest, last := events[..|events| - 1], events[|events| - 1];
      ObservedByKeepsOrder(batchMethod, rest);
      assert events == rest + [last];
      var earlier := ObservedBy(batchMethod, rest);
      assert (earlier + [last])[..|earlier|] == earlier;
    }
  }

  /** The events with a sequence number, in order. */
  ghost function WithNumber(events: seq<PageEvent>, n: nat): seq<PageEvent> {
    if events == [] then []
    else
      var earlier, last := WithNumber(events[..|events| - 1], n), events[|events| - 1];
      if last.event.sequenceNumber == n then earlier + [last] else earlier
  }

  lemma {:induction false} NumberStep(events: seq<PageEvent>, x: PageEvent, n: nat)
    ensures WithNumber([], n) == []
    ensures WithNumber(events + [x], n) == WithNumber(events, n) + if x.event.sequenceNumber == n then [x] else []
  {
    assert (events + [x])[..|events|] == events;
  }

  lemma {:induction false} InsertStep(sorted: seq<PageEvent>, x: PageEvent)
    ensures Insert([], x) == [x]
    ensures sorted != [] ==>
              var rest, last := sorted[..|sorted| - 1], sorted[|sorted| - 1];
              Insert(sorted, x) == if last.event.sequenceNumber <= x.event.sequenceNumber then sorted + [x]
                                     else Insert(rest, x) + [last]
  {
  }

  lemma {:induction false} InsertKeepsNumber(sorted: seq<PageEvent>, x: PageEvent, n: nat)
    requires Ordered(sorted)
    ensures WithNumber(Insert(sorted, x), n)
         == WithNumber(sorted, n) + if x.event.sequenceNumber == n then [x] else []
  {
    hide Insert, WithNumber;
    NumberStep(sorted, x, n);
    InsertStep(sorted, x);
    if sorted == [] {
      assert sorted + [x] == [x];
    } else {
      var rest, last := sorted[..|sorted| - 1], sorted[|sorted| - 1];
      assert sorted == rest + [last];
      OrderedSplit(sorted);
      NumberStep(rest, last, n);
      if last.event.sequenceNumber > x.event.sequenceNumber {
        InsertKeepsNumber(rest, x, n);
        NumberStep(Insert(rest, x), last, n);
        if x.event.sequenceNumber == n {
          assert last.event.sequenceNumber != n;
        }
      }
    }
  }

  /** Sorting is stable: events with the same number stay in delivery order. */
  lemma {:induction false} SortIsStable(events: seq<PageEvent>, n: nat)
    ensures WithNumber(SortBySequence(events), n) == WithNumber(events, n)
  {
    if events != [] {
      var rest, last := events[..|events| - 1], events[|events| - 1];
      SortIsStable(rest, n);
      SortIsSortedPermutation(rest);
      InsertKeepsNumber(SortBySequence(rest), last, n);
    }
  }

  /** A batch holds exactly the converted events of the types its method observes, in sequence. */
  lemma {:induction false} BatchMembers(
    target: ReactorObservationTarget, partitions: seq<DeliveredPartition>, m: nat, x: PageEvent)
    requires m < |target.batchMethods|
    ensures Ordered(Batch(target, partitions, m))
    ensures x in Batch(target, partitions, m) <==>
            && x in Delivered(partitions) && x.event.eventTypeId in target.batchMethods[m].eventTypes
            && x.event.conversionError.None?
  {
    hide Ordered, ObservedBy, SortBySequence, BatchEvents, Delivered;
    var events := BatchEvents(target.batchMethods, Delivered(partitions));
    SortIsSortedPermutation(events);
    ObservedByKeepsOrder(target.batchMethods[m], SortBySequence(events));
    SortMembers(events, x);
    BatchEventsMembers(target.batchMethods, Delivered(partitions), x);
  }

  ghost predicate IsFailureIn(q: PartitionProblem, observed: seq<PageEvent>, error: string) {
    exists x :: x in observed && q == FailedAt(x.partition, x.event.sequenceNumber, error)
  }

  lemma {:induction false} FailAllFailsEvents(observed: seq<PageEvent>, error: string)
    ensures forall q :: q in FailAll(observed, error) ==> IsFailureIn(q, observed, error)
  {
    if observed != [] {
      var rest, last := observed[..|observed| - 1], observed[|observed| - 1];
      FailAllFailsEvents(rest, error);
      forall q | q in FailAll(observed, error) ensures IsFailureIn(q, observed, error) {
        if q in FailAll(rest, error) {
          var x :| x in rest && q == FailedAt(x.partition, x.event.sequenceNumber, error);
          assert x in observed;
        } else {
          assert last in observed && q == FailedAt(last.partition, last.event.sequenceNumber, error);
        }
      }
    }
  }

  lemma {:induction false} FailAllStep(observed: seq<PageEvent>, error: string)
    ensures FailAll([], error) == []
    ensures observed != [] ==>
              var earlier, x := FailAll(observed[..|observed| - 1], error), observed[|observed| - 1];
              if exists q :: q in earlier && q.partition == x.partition then FailAll(observed, error) == earlier
              else FailAll(observed, error) == earlier + [FailedAt(x.partition, x.event.sequenceNumber, error)]
  {
  }

  lemma {:induction false} FailAllBlocksEach(observed: seq<PageEvent>, error: string)
    requires Ordered(observed)
    ensures forall x :: x in observed ==> Blocked(x.partition, x.event.sequenceNumber, FailAll(observed, error))
  {
    if observed != [] {
      OrderedSplit(observed);
    }
    hide Ordered, Blocked, FailAll;
    FailAllStep(observed, error);
    if observed != [] {
      var rest, last := observed[..|observed| - 1], observed[|observed| - 1];
      FailAllBlocksEach(rest, error);
      FailAllFailsEvents(rest, error);
      assert forall x :: x in observed ==> x in rest || x == last;
      var earlier := FailAll(rest, error);
      if q :| q in earlier && q.partition == last.partition {
        assert IsFailureIn(q, rest, error);
        BlocksFrom(earlier, q, last.event.sequenceNumber);
      } else {
        BlockedIsMonotone(earlier, FailedAt(last.partition, last.event.sequenceNumber, error));
      }
    }
  }

  /** The place of the first event of a partition. */
  ghost predicate IsFirstOfPartition(observed: seq<PageEvent>, partition: string, k: int) {
    && 0 <= k < |observed| && observed[k].partition == partition
    && forall j :: 0 <= j < k ==> observed[j].partition != partition
  }

  /**
   * A batch method that threw or returned a value fails each partition of its batch once, at its first event there,
   * with what went wrong.
   */
  lemma {:induction false} FailAllByPlace(observed: seq<PageEvent>, error: string, q: PartitionProblem)
    ensures q in FailAll(observed, error) <==>
            exists k :: IsFirstOfPartition(observed, q.partition, k)
                        && q == PartitionProblem(observed[k].partition, observed[k].event.sequenceNumber, Failed,
                             [error], 0.0)
  {
    hide FailAll;
    FailAllStep(observed, error);
    if observed != [] {
      var rest, last := observed[..|observed| - 1], observed[|observed| - 1];
      FailAllByPlace(rest, error, q);
      forall k | k < |rest|
        ensures IsFirstOfPartition(observed, q.partition, k) <==> IsFirstOfPartition(rest, q.partition, k) {}
      var failed := FailedAt(last.partition, last.event.sequenceNumber, error);
      if r :| r in FailAll(rest, error) && r.partition == last.partition {
        FailAllByPlace(rest, error, r);
        var j :| IsFirstOfPartition(rest, r.partition, j);
        assert !IsFirstOfPartition(observed, last.partition, |rest|);
      } else {
        NotFailedYet(rest, error, last.partition);
        assert IsFirstOfPartition(observed, last.partition, |rest|);
      }
    }
  }

  lemma {:induction false} NotFailedYet(observed: seq<PageEvent>, error: string, partition: string)
    requires forall q :: q in FailAll(observed, error) ==> q.partition != partition
    ensures forall x :: x in observed ==> x.partition != partition
  {
    hide FailAll;
    FailAllStep(observed, error);
    if observed != [] {
      var rest, last := observed[..|observed| - 1], observed[|observed| - 1];
      assert observed == rest + [last];
      NotFailedYet(rest, error, partition);
    }
  }

  lemma {:induction false} OrderedSplit(events: seq<PageEvent>)
    requires Ordered(events) && events != []
    ensures Ordered(events[..|events| - 1])
    ensures forall x :: x in events[..|events| - 1] ==>
            x.event.sequenceNumber <= events[|events| - 1].event.sequenceNumber
  {
  }

  lemma {:induction false} BlocksFrom(problems: seq<PartitionProblem>, q: PartitionProblem, n: nat)
    requires q in problems && q.at <= n
    ensures Blocked(q.partition, n, problems)
  {
  }

  /** Each source lies in one partition exactly when each event lies in the partition the batch has for its source. */
  lemma {:induction false} PartitionsBySourceAgree(observed: seq<PageEvent>)
    ensures SourcesTogether(observed) <==> forall x :: x in observed ==> InLastPartition(observed, x)
  {
    if observed != [] {
      var rest, last := observed[..|observed| - 1], observed[|observed| - 1];
      assert observed == rest + [last] && last in observed;
      forall x | x in rest ensures x in observed {}
      PartitionsBySourceAgree(rest);
    }
  }

  /** The place of the last event of a source. */
  ghost predicate IsLastOfSource(observed: seq<PageEvent>, eventSourceId: string, k: int) {
    && 0 <= k < |observed| && observed[k].event.eventSourceId == eventSourceId
    && forall j :: k < j < |observed| ==> observed[j].event.eventSourceId != eventSourceId
  }

  lemma {:induction false} PartitionsBySourceStep(observed: seq<PageEvent>)
    ensures PartitionsBySource([]) == map[]
    ensures observed != [] ==>
              var x := observed[|observed| - 1];
              PartitionsBySource(observed)
              == PartitionsBySource(observed[..|observed| - 1])[x.event.eventSourceId := x.partition]
  {
  }

  lemma {:induction false} LastOfSourceStep(observed: seq<PageEvent>, eventSourceId: string, k: int)
    requires observed != []
    ensures var n := |observed| - 1;
            IsLastOfSource(observed, eventSourceId, k) <==>
            if observed[n].event.eventSourceId == eventSourceId then k == n
              else IsLastOfSource(observed[..n], eventSourceId, k)
  {
  }

  lemma {:induction false} PartitionsBySourceAreLast(observed: seq<PageEvent>, eventSourceId: string)
    ensures eventSourceId in PartitionsBySource(observed) <==>
            exists x :: x in observed && x.event.eventSourceId == eventSourceId
    ensures eventSourceId in PartitionsBySource(observed) ==>
              exists k :: IsLastOfSource(observed, eventSourceId, k)
                && PartitionsBySource(observed)[eventSourceId] == observed[k].partition
    ensures forall k :: IsLastOfSource(observed, eventSourceId, k) ==>
              eventSourceId in PartitionsBySource(observed)
              && PartitionsBySource(observed)[eventSourceId] == observed[k].partition
  {
    hide PartitionsBySource;
    PartitionsBySourceStep(observed);
    if observed != [] {
      var rest, last := observed[..|observed| - 1], observed[|observed| - 1];
      assert observed == rest + [last];
      PartitionsBySourceAreLast(rest, eventSourceId);
      LastOfSourceStep(observed, eventSourceId, |rest|);
      if last.event.eventSourceId != eventSourceId && eventSourceId in PartitionsBySource(rest) {
        var k :| IsLastOfSource(rest, eventSourceId, k)
                 && PartitionsBySource(rest)[eventSourceId] == rest[k].partition;
        LastOfSourceStep(observed, eventSourceId, k);
      }
      forall k | IsLastOfSource(observed, eventSourceId, k)
        ensures eventSourceId in PartitionsBySource(observed)
                && PartitionsBySource(observed)[eventSourceId] == observed[k].partition
      {
        LastOfSourceStep(observed, eventSourceId, k);
      }
    }
  }

  /**
   * The problem a report stands for: in the partition of the last event the batch holds of its source, from where its
   * target points on, with the report's own error or delay.
   */
  ghost predicate IsReported(observed: seq<PageEvent>, canDefer: bool, report: Report, q: PartitionProblem) {
    && (exists k :: IsLastOfSource(observed, report.target.eventSourceId, k) && q.partition == observed[k].partition)
    && PointsAt(EventsOf(observed), report.target, q.at)
    && match report
       case Fail(target, error) =>
         && q.state == Failed && q.retryAfterMilliseconds == 0.0
         && q.exceptionMessages == [error.GetOr("The partition failed in the batch: " + target.eventSourceId)]
       case Defer(target, retry) =>
         if canDefer then
           && q.state == Deferred && q.exceptionMessages == []
           && IsDelay(retry, q.retryAfterMilliseconds)
         else
           && q.state == Failed && q.retryAfterMilliseconds == 0.0
           && q.exceptionMessages == ["Deferral is not supported by the kernel for " + target.eventSourceId]
  }

  lemma {:induction false} ReportedIsUnique(
    observed: seq<PageEvent>, canDefer: bool, report: Report, q: PartitionProblem, r: PartitionProblem)
    requires IsReported(observed, canDefer, report, q) && IsReported(observed, canDefer, report, r)
    ensures q == r
  {
    hide PointsAt, EventsOf, IsDelay;
    PointsAtOnePlace(EventsOf(observed), report.target, q.at, r.at);
    var s := report.target.eventSourceId;
    var k :| IsLastOfSource(observed, s, k) && q.partition == observed[k].partition;
    var j :| IsLastOfSource(observed, s, j) && r.partition == observed[j].partition;
    OneLastOfSource(observed, s, k, j);
    if report.Defer? && canDefer {
      OneDelay(report.retryAfterMilliseconds, q.retryAfterMilliseconds, r.retryAfterMilliseconds);
    }
  }

  lemma {:induction false} OneLastOfSource(observed: seq<PageEvent>, eventSourceId: string, k: int, j: int)
    requires IsLastOfSource(observed, eventSourceId, k) && IsLastOfSource(observed, eventSourceId, j)
    ensures k == j
  {
  }

  /** The outcome of one report, as a problem of the page. */
  lemma {:induction false} OutcomeIsReported(observed: seq<PageEvent>, canDefer: bool, report: Report)
    ensures var outcome := OutcomeOf(EventsOf(observed), canDefer, report);
            if outcome.Some? then
              IsReported(observed, canDefer, report, ProblemOf(PartitionsBySource(observed), outcome.value))
            else forall q :: !IsReported(observed, canDefer, report, q)
  {
    hide PartitionsBySource, Locate, PointsAt, EventsOf, IsLastOfSource, IsDelay, Round, NotNegative;
    var events, s := EventsOf(observed), report.target.eventSourceId;
    LocateFinds(events, report.target);
    PartitionsBySourceAreLast(observed, s);
    HeldSources(observed, s);
    if report.Defer? {
      RoundsToDelay(report.retryAfterMilliseconds);
    }
  }

  /** A batch holds a source for its method exactly when it has a last event of it. */
  lemma {:induction false} HeldSources(observed: seq<PageEvent>, eventSourceId: string)
    ensures (exists e :: e in EventsOf(observed) && e.eventSourceId == eventSourceId) <==>
            eventSourceId in PartitionsBySource(observed)
    ensures (exists k :: IsLastOfSource(observed, eventSourceId, k)) <==>
            eventSourceId in PartitionsBySource(observed)
  {
    hide PartitionsBySource;
    PartitionsBySourceAreLast(observed, eventSourceId);
    var events := EventsOf(observed);
    if e :| e in events && e.eventSourceId == eventSourceId {
      var k :| 0 <= k < |events| && events[k] == e;
      assert observed[k] in observed;
    }
    if x :| x in observed && x.event.eventSourceId == eventSourceId {
      var k :| 0 <= k < |observed| && observed[k] == x;
      assert events[k] in events;
    }
  }

  /** The problems of a batch method that returned are exactly those its reports stand for. */
  lemma {:induction false} BatchProblemsAreReports(
    batchMethod: BatchMethod, observed: seq<PageEvent>, canDefer: bool, q: PartitionProblem)
    requires batchMethod.run.ending.Returned?
    ensures q in BatchProblems(batchMethod, observed, canDefer) <==>
            exists i :: 0 <= i < |batchMethod.run.reports|
                        && IsReported(observed, canDefer, batchMethod.run.reports[i], q)
  {
    hide IsReported, OutcomeOf, OutcomesOf, ProblemOf, PartitionsBySource;
    var reports, partitionOf := batchMethod.run.reports, PartitionsBySource(observed);
    var outcomes := OutcomesOf(EventsOf(observed), canDefer, reports);
    if q in BatchProblems(batchMethod, observed, canDefer) {
      var i :| 0 <= i < |outcomes| && q == ProblemOf(partitionOf, outcomes[i]);
      OutcomesAreLocatedReports(EventsOf(observed), canDefer, reports, outcomes[i]);
      var r :| r in reports && OutcomeOf(EventsOf(observed), canDefer, r) == Some(outcomes[i]);
      var j :| 0 <= j < |reports| && reports[j] == r;
      OutcomeIsReported(observed, canDefer, r);
    }
    if j :| 0 <= j < |reports| && IsReported(observed, canDefer, reports[j], q) {
      OutcomeIsReported(observed, canDefer, reports[j]);
      var outcome := OutcomeOf(EventsOf(observed), canDefer, reports[j]).value;
      ReportedIsUnique(observed, canDefer, reports[j], q, ProblemOf(partitionOf, outcome));
      OutcomesAreLocatedReports(EventsOf(observed), canDefer, reports, outcome);
      var i :| 0 <= i < |outcomes| && outcomes[i] == outcome;
      assert ProblemsOf(partitionOf, outcomes)[i] == q;
    }
  }

  /**
   * A batch method that returned and reported an event blocks the event's partition from exactly that event on; when it
   * reported the source once, what it blocks before that is blocked by reports of other sources.
   */
  lemma {:induction false} EventReportBlocksFromThere(
    batchMethod: BatchMethod, observed: seq<PageEvent>, canDefer: bool, i: nat, k: nat)
    requires batchMethod.run.ending.Returned? && i < |batchMethod.run.reports|
    requires var target := batchMethod.run.reports[i].target;
             target.ByEvent? && IsLastOfSource(observed, target.eventSourceId, k)
    ensures var target := batchMethod.run.reports[i].target;
            && (exists q :: q in BatchProblems(batchMethod, observed, canDefer)
                            && q.partition == observed[k].partition && q.at == target.sequenceNumber)
            && ((forall j :: 0 <= j < |batchMethod.run.reports| && j != i ==>
                   batchMethod.run.reports[j].target.eventSourceId != target.eventSourceId) ==>
                forall n: nat :: n < target.sequenceNumber ==>
                  (Blocked(observed[k].partition, n, BatchProblems(batchMethod, observed, canDefer)) <==>
                   exists q, j :: && 0 <= j < |batchMethod.run.reports| && j != i
                                  && IsReported(observed, canDefer, batchMethod.run.reports[j], q)
                                  && q.partition == observed[k].partition && q.at <= n))
  {
    hide BatchProblems, IsReported;
    var reports := batchMethod.run.reports;
    var target := reports[i].target;
    var q := ReportStandsForAProblem(observed, canDefer, reports[i], k);
    BatchProblemsAreReports(batchMethod, observed, canDefer, q);
    forall n: nat | n < target.sequenceNumber
      ensures Blocked(observed[k].partition, n, BatchProblems(batchMethod, observed, canDefer)) <==>
              exists q, j :: && 0 <= j < |reports| && j != i && IsReported(observed, canDefer, reports[j], q)
                             && q.partition == observed[k].partition && q.at <= n
    {
      if r :| r in BatchProblems(batchMethod, observed, canDefer) && r.partition == observed[k].partition && r.at <= n {
        BatchProblemsAreReports(batchMethod, observed, canDefer, r);
        var j :| 0 <= j < |reports| && IsReported(observed, canDefer, reports[j], r);
        if j == i {
          ReportedIsUnique(observed, canDefer, reports[i], q, r);
        }
      }
      if r, j :| && 0 <= j < |reports| && j != i && IsReported(observed, canDefer, reports[j], r)
                 && r.partition == observed[k].partition && r.at <= n {
        BatchProblemsAreReports(batchMethod, observed, canDefer, r);
      }
    }
  }

  lemma {:induction false} ReportStandsForAProblem(observed: seq<PageEvent>, canDefer: bool, report: Report, k: nat)
    returns (q: PartitionProblem)
    requires IsLastOfSource(observed, report.target.eventSourceId, k)
    ensures IsReported(observed, canDefer, report, q) && q.partition == observed[k].partition
    ensures report.target.ByEvent? ==> q.at == report.target.sequenceNumber
  {
    hide PartitionsBySource, ProblemOf;
    var events := EventsOf(observed);
    assert events[k] in events && events[k].eventSourceId == report.target.eventSourceId;
    LocateFinds(events, report.target);
    OutcomeIsReported(observed, canDefer, report);
    q := ProblemOf(PartitionsBySource(observed), OutcomeOf(events, canDefer, report).value);
  }

  /** A batch method leaves every event it was called with finished or blocked. */
  lemma {:induction false} BatchFinishesOrBlocks(
    batchMethod: BatchMethod, observed: seq<PageEvent>, canDefer: bool, x: PageEvent)
    requires Ordered(observed) && InLastPartition(observed, x) && x in observed
    ensures FinishedInBatch(batchMethod, x.event)
            || Blocked(x.partition, x.event.sequenceNumber, BatchProblems(batchMethod, observed, canDefer))
  {
    hide Ordered, PartitionsBySource, IsReported;
    match batchMethod.run.ending
    case ReturnedAValue(error) => FailAllBlocksEach(observed, error);
    case Threw(error) => FailAllBlocksEach(observed, error);
    case Returned =>
      PartitionsBySourceAreLast(observed, x.event.eventSourceId);
      var k :| IsLastOfSource(observed, x.event.eventSourceId, k) && x.partition == observed[k].partition;
      if report :| report in batchMethod.run.reports && report.target.eventSourceId == x.event.eventSourceId
                   && (report.target.ByEvent? ==> report.target.sequenceNumber <= x.event.sequenceNumber) {
        var q := ReportStandsForAProblem(observed, canDefer, report, k);
        BatchProblemsAreReports(batchMethod, observed, canDefer, q);
        ReportedIsNotAfter(observed, canDefer, report, q, x);
      }
  }

  /**
   * What a batch method finished of what it was called with: every event, when it returned, that no report of the
   * event's own source stands at or before.
   */
  lemma {:induction false} FinishedByReports(
    batchMethod: BatchMethod, observed: seq<PageEvent>, canDefer: bool, x: PageEvent)
    requires Ordered(observed) && x in observed
    ensures FinishedInBatch(batchMethod, x.event) <==>
            && batchMethod.run.ending == Returned
            && forall i, q :: && 0 <= i < |batchMethod.run.reports|
                              && batchMethod.run.reports[i].target.eventSourceId == x.event.eventSourceId
                              && IsReported(observed, canDefer, batchMethod.run.reports[i], q) ==>
                 x.event.sequenceNumber < q.at
  {
    hide Ordered, PartitionsBySource, IsReported;
    var reports, s := batchMethod.run.reports, x.event.eventSourceId;
    PartitionsBySourceAreLast(observed, s);
    LastPartitionOf(observed, x);
    var k :| IsLastOfSource(observed, s, k);
    forall i | 0 <= i < |reports| && reports[i].target.eventSourceId == s
      ensures forall q :: IsReported(observed, canDefer, reports[i], q) ==>
                (x.event.sequenceNumber < q.at <==>
                 reports[i].target.ByEvent? && x.event.sequenceNumber < reports[i].target.sequenceNumber)
      ensures exists q :: IsReported(observed, canDefer, reports[i], q)
    {
      var q := ReportStandsForAProblem(observed, canDefer, reports[i], k);
      if !(reports[i].target.ByEvent? && x.event.sequenceNumber < reports[i].target.sequenceNumber) {
        ReportedIsNotAfter(observed, canDefer, reports[i], q, x);
      }
      forall r | IsReported(observed, canDefer, reports[i], r) ensures r == q {
        ReportedIsUnique(observed, canDefer, reports[i], q, r);
      }
    }
    assert forall report :: report in reports ==> exists i :: 0 <= i < |reports| && reports[i] == report;
  }

  lemma {:induction false} ReportedIsNotAfter(
    observed: seq<PageEvent>, canDefer: bool, report: Report, q: PartitionProblem, x: PageEvent)
    requires Ordered(observed) && x in observed && report.target.eventSourceId == x.event.eventSourceId
    requires IsReported(observed, canDefer, report, q)
    requires report.target.ByEvent? ==> report.target.sequenceNumber <= x.event.sequenceNumber
    ensures q.at <= x.event.sequenceNumber
  {
    OrderedIsInSequence(observed);
    var events := EventsOf(observed);
    var j :| 0 <= j < |observed| && observed[j] == x;
    assert events[j] == x.event;
  }

  /** The run in which a batch method reports a whole event source and nothing else. */
  function ReportsSource(eventSourceId: string): BatchRun {
    BatchRun([Report.Fail(ByPartition(eventSourceId), None)], Returned)
  }

  lemma {:induction false} LastPartitionOf(observed: seq<PageEvent>, x: PageEvent)
    requires x in observed
    ensures x.event.eventSourceId in PartitionsBySource(observed)
  {
    var rest, last := observed[..|observed| - 1], observed[|observed| - 1];
    assert observed == rest + [last];
    if x in rest {
      LastPartitionOf(rest, x);
    }
  }

  /**
   * What a report of a whole source amounts to: one failure, of one of the partitions the batch holds the source for.
   */
  lemma {:induction false} SourceReportFailsOnePartition(
    batchMethod: BatchMethod, observed: seq<PageEvent>, canDefer: bool, x: PageEvent)
    requires x in observed && batchMethod.run == ReportsSource(x.event.eventSourceId) && Ordered(observed)
    ensures !FinishedInBatch(batchMethod, x.event)
    ensures x.event.eventSourceId in PartitionsBySource(observed)
    ensures |BatchProblems(batchMethod, observed, canDefer)| == 1
    ensures BatchProblems(batchMethod, observed, canDefer)[0].partition
            == PartitionsBySource(observed)[x.event.eventSourceId]
  {
    hide Ordered, PartitionsBySource, OutcomeOf, ProblemOf, IsReported;
    var s, reports := x.event.eventSourceId, batchMethod.run.reports;
    LastPartitionOf(observed, x);
    PartitionsBySourceAreLast(observed, s);
    var k :| IsLastOfSource(observed, s, k) && PartitionsBySource(observed)[s] == observed[k].partition;
    OutcomeIsReported(observed, canDefer, reports[0]);
    var q := ReportStandsForAProblem(observed, canDefer, reports[0], k);
    ReportedIsUnique(observed, canDefer, reports[0], q,
      ProblemOf(PartitionsBySource(observed), OutcomeOf(EventsOf(observed), canDefer, reports[0]).value));
    assert reports[..0] == [] && OutcomesOf(EventsOf(observed), canDefer, []) == [];
  }

  /** A split source has an event outside the partition that a report of the whole source fails. */
  lemma {:induction false} SplitSourceHasAnotherPartition(observed: seq<PageEvent>) returns (x: PageEvent)
    requires !SourcesTogether(observed)
    ensures x in observed && x.event.eventSourceId in PartitionsBySource(observed)
    ensures PartitionsBySource(observed)[x.event.eventSourceId] != x.partition
  {
    var a, b :| a in observed && b in observed && a.event.eventSourceId == b.event.eventSourceId
                && a.partition != b.partition;
    LastPartitionOf(observed, a);
    x := if PartitionsBySource(observed)[a.event.eventSourceId] != a.partition then a else b;
  }

  /**
   * Whatever the batch method does, each event it is called with is finished by it or blocked by a problem it causes.
   */
  ghost predicate EveryRunAccounts(batchMethod: BatchMethod, observed: seq<PageEvent>, canDefer: bool) {
    forall run, x :: x in observed ==>
      || FinishedInBatch(batchMethod.(run := run), x.event)
      || Blocked(x.partition, x.event.sequenceNumber, BatchProblems(batchMethod.(run := run), observed, canDefer))
  }

  /** A batch is accounted for under every run of its method exactly when each source it holds lies in one partition. */
  lemma {:induction false} BatchAccountsExactlyWhenTogether(
    batchMethod: BatchMethod, observed: seq<PageEvent>, canDefer: bool)
    requires Ordered(observed)
    ensures EveryRunAccounts(batchMethod, observed, canDefer) <==> SourcesTogether(observed)
  {
    hide Ordered, BatchProblems, FinishedInBatch, PartitionsBySource;
    if SourcesTogether(observed) {
      PartitionsBySourceAgree(observed);
      forall run, x | x in observed
        ensures || FinishedInBatch(batchMethod.(run := run), x.event)
                || Blocked(x.partition, x.event.sequenceNumber,
                   BatchProblems(batchMethod.(run := run), observed, canDefer))
      {
        BatchFinishesOrBlocks(batchMethod.(run := run), observed, canDefer, x);
      }
    } else {
      var x := SplitSourceHasAnotherPartition(observed);
      SourceReportFailsOnePartition(batchMethod.(run := ReportsSource(x.event.eventSourceId)), observed, canDefer, x);
    }
  }

  // ----- per-event handlers -----

  /** The problem of the first event whose handler fails, or whose content does not convert for it. */
  function PerEventProblem(
    target: ReactorObservationTarget, onceOnly: OnceOnly, partition: string, events: seq<AppendedEvent>)
    : Option<PartitionProblem>
  {
    if events == [] then None
    else
      var earlier, e := PerEventProblem(target, onceOnly, partition, events[..|events| - 1]), events[|events| - 1];
      if earlier.Some? then earlier
      else if RunsPerEvent(target, onceOnly, e) && ErrorOf(e).Some?
      then Some(FailedAt(partition, e.sequenceNumber, ErrorOf(e).value))
      else None
  }

  /** The handlers that finish before one fails. */
  function PerEventFinished(
    target: ReactorObservationTarget, onceOnly: OnceOnly, partition: string,
    events: seq<AppendedEvent>): set<Invocation>
  {
    if events == [] then {}
    else
      var rest, e := events[..|events| - 1], events[|events| - 1];
      PerEventFinished(target, onceOnly, partition, rest)
      + if PerEventProblem(target, onceOnly, partition, rest).None? && RunsPerEvent(target, onceOnly, e)
        && ErrorOf(e).None?
        then {PerEvent(partition, e)} else {}
  }

  lemma {:induction false} NoPerEventYet(target: ReactorObservationTarget, onceOnly: OnceOnly, partition: string)
    ensures PerEventProblem(target, onceOnly, partition, []).None?
    ensures PerEventFinished(target, onceOnly, partition, []) == {}
  {
  }

  /** One more event: it fails, it finishes, or it has no handler to run, unless an earlier one failed. */
  lemma {:induction false} OnePerEventMore(
    target: ReactorObservationTarget, onceOnly: OnceOnly, partition: string, events: seq<AppendedEvent>,
    e: AppendedEvent)
    requires PerEventProblem(target, onceOnly, partition, events).None?
    ensures PerEventProblem(target, onceOnly, partition, events + [e])
         == if RunsPerEvent(target, onceOnly, e) && ErrorOf(e).Some? then
           Some(FailedAt(partition, e.sequenceNumber, ErrorOf(e).value)) else None
    ensures PerEventFinished(target, onceOnly, partition, events + [e])
         == PerEventFinished(target, onceOnly, partition, events)
            + if RunsPerEvent(target, onceOnly, e) && ErrorOf(e).None? then {PerEvent(partition, e)} else {}
  {
    hide RunsPerEvent, ErrorOf;
    assert (events + [e])[..|events|] == events;
  }

  /** Nothing happens after the first failure. */
  lemma {:induction false} StopsAtFirstFailure(
    target: ReactorObservationTarget, onceOnly: OnceOnly, partition: string, events: seq<AppendedEvent>, n: nat)
    requires n <= |events| && PerEventProblem(target, onceOnly, partition, events[..n]).Some?
    ensures PerEventProblem(target, onceOnly, partition, events)
            == PerEventProblem(target, onceOnly, partition, events[..n])
    ensures PerEventFinished(target, onceOnly, partition, events)
            == PerEventFinished(target, onceOnly, partition, events[..n])
  {
    if n == |events| {
      assert events[..n] == events;
    } else {
      assert events[..|events| - 1][..n] == events[..n];
      StopsAtFirstFailure(target, onceOnly, partition, events[..|events| - 1], n);
    }
  }

  /** Runs the per-event handlers of a partition until one fails. */
  method ObservePartition(target: ReactorObservationTarget, onceOnly: OnceOnly, partition: DeliveredPartition)
    returns (problem: Option<PartitionProblem>, finished: set<Invocation>)
    ensures problem == PerEventProblem(target, onceOnly, partition.partition, partition.events)
    ensures finished == PerEventFinished(target, onceOnly, partition.partition, partition.events)
  {
    hide IsBatchEventType, HasHandler, PerEventProblem, PerEventFinished;
    finished := {};
    NoPerEventYet(target, onceOnly, partition.partition);
    for i := 0 to |partition.events|
      invariant PerEventProblem(target, onceOnly, partition.partition, partition.events[..i]).None?
      invariant finished == PerEventFinished(target, onceOnly, partition.partition, partition.events[..i])
    {
      var e := partition.events[i];
      assert partition.events[..i + 1] == partition.events[..i] + [e];
      OnePerEventMore(target, onceOnly, partition.partition, partition.events[..i], e);
      if e.eventTypeId == "" || IsBatchEventType(target.batchMethods, e.eventTypeId) {
        continue;
      }
      if !HasHandler(target.entries, onceOnly, e) {
        continue;
      }
      if e.conversionError.Some? {
        StopsAtFirstFailure(target, onceOnly, partition.partition, partition.events, i + 1);
        return Some(FailedAt(partition.partition, e.sequenceNumber, e.conversionError.value)), finished;
      }
      if e.handlingError.Some? {
        StopsAtFirstFailure(target, onceOnly, partition.partition, partition.events, i + 1);
        return Some(FailedAt(partition.partition, e.sequenceNumber, e.handlingError.value)), finished;
      }
      finished := finished + {PerEvent(partition.partition, e)};
    }
    assert partition.events[..|partition.events|] == partition.events;
    problem := None;
  }

  /** The problem is a failing event's; every event with a handler before it finished, and no other. */
  lemma {:induction false} PerEventOutcome(
    target: ReactorObservationTarget, onceOnly: OnceOnly, partition: string, events: seq<AppendedEvent>)
    ensures forall invocation :: invocation in PerEventFinished(target, onceOnly, partition, events) ==>
              && invocation.PerEvent? && invocation.partition == partition && invocation.event in events
              && RunsPerEvent(target, onceOnly, invocation.event) && ErrorOf(invocation.event).None?
    ensures var problem := PerEventProblem(target, onceOnly, partition, events);
            && (problem.None? ==> forall e :: e in events && RunsPerEvent(target, onceOnly, e) ==>
                  ErrorOf(e).None? && PerEvent(partition, e) in PerEventFinished(target, onceOnly, partition, events))
            && (problem.Some? ==> exists i :: FirstFailure(target, onceOnly, partition, events, i, problem.value))
  {
    hide RunsPerEvent, ErrorOf;
    if events != [] {
      var rest, last := events[..|events| - 1], events[|events| - 1];
      assert events == rest + [last] && last in events;
      PerEventOutcome(target, onceOnly, partition, rest);
      var earlier := PerEventProblem(target, onceOnly, partition, rest);
      if earlier.Some? {
        var i: nat :| FirstFailure(target, onceOnly, partition, rest, i, earlier.value);
        assert FirstFailure(target, onceOnly, partition, events, i, earlier.value);
      } else if PerEventProblem(target, onceOnly, partition, events).Some? {
        assert FirstFailure(target, onceOnly, partition, events, |rest|,
          PerEventProblem(target, onceOnly, partition, events).value);
      }
    }
  }

  /** The event at a place fails with the given problem, and every handler before it finished. */
  ghost predicate FirstFailure(
    target: ReactorObservationTarget, onceOnly: OnceOnly, partition: string, events: seq<AppendedEvent>, i: nat,
    problem: PartitionProblem)
  {
    && i < |events| && RunsPerEvent(target, onceOnly, events[i]) && ErrorOf(events[i]).Some?
    && problem == FailedAt(partition, events[i].sequenceNumber, ErrorOf(events[i]).value)
    && forall j :: 0 <= j < i && RunsPerEvent(target, onceOnly, events[j]) ==>
         PerEvent(partition, events[j]) in PerEventFinished(target, onceOnly, partition, events)
  }

  // ----- batch methods -----

  /** Calls one batch method and turns what it reported into problems. */
  method InvokeBatchMethod(batchMethod: BatchMethod, observed: seq<PageEvent>, canDefer: bool)
    returns (problems: seq<PartitionProblem>)
    ensures problems == BatchProblems(batchMethod, observed, canDefer)
  {
    hide PartitionsBySource, FailAll;
    var batch := new EventBatch(EventsOf(observed), canDefer);
    var partitionOf: map<string, string> := map[];
    PartitionsBySourceStep([]);
    for i := 0 to |observed|
      invariant partitionOf == PartitionsBySource(observed[..i]) && batch.outcomes == []
    {
      PartitionsBySourceStep(observed[..i + 1]);
      assert observed[..i + 1][..i] == observed[..i];
      partitionOf := partitionOf[observed[i].event.eventSourceId := observed[i].partition];
    }
    assert observed[..|observed|] == observed;
    batch.Run(batchMethod.run.reports);
    if batchMethod.run.ending.Returned? {
      return ProblemsOf(partitionOf, batch.outcomes);
    }
    var error := batchMethod.run.ending.error;
    problems := [];
    FailAllStep([], error);
    for i := 0 to |observed|
      invariant problems == FailAll(observed[..i], error)
    {
      FailAllStep(observed[..i + 1], error);
      assert observed[..i + 1][..i] == observed[..i];
      if !exists q :: q in problems && q.partition == observed[i].partition {
        problems := problems + [FailedAt(observed[i].partition, observed[i].event.sequenceNumber, error)];
      }
    }
  }

  lemma {:induction false} NoEventYet(methods: seq<BatchMethod>)
    ensures BatchEvents(methods, []) == [] && ConversionProblems(methods, []) == []
  {
  }

  lemma {:induction false} OneEventMore(methods: seq<BatchMethod>, events: seq<PageEvent>, x: PageEvent)
    ensures BatchEvents(methods, events + [x])
         == BatchEvents(methods, events) + if IsBatchEventType(methods, x.event.eventTypeId)
           && x.event.conversionError.None? then [x] else []
    ensures ConversionProblems(methods, events + [x])
         == ConversionProblems(methods, events)
            + if IsBatchEventType(methods, x.event.eventTypeId) && x.event.conversionError.Some?
              then [FailedAt(x.partition, x.event.sequenceNumber, x.event.conversionError.value)] else []
  {
  }

  /** Splits the delivered batch events into those that convert and the problems of those that do not. */
  method CollectBatchEvents(methods: seq<BatchMethod>, partitions: seq<DeliveredPartition>)
    returns (events: seq<PageEvent>, problems: seq<PartitionProblem>)
    ensures events == BatchEvents(methods, Delivered(partitions))
    ensures problems == ConversionProblems(methods, Delivered(partitions))
  {
    hide BatchEvents, ConversionProblems, IsBatchEventType;
    events, problems := [], [];
    NoEventYet(methods);
    for p := 0 to |partitions|
      invariant events == BatchEvents(methods, Delivered(partitions[..p]))
      invariant problems == ConversionProblems(methods, Delivered(partitions[..p]))
    {
      var partition := partitions[p];
      ghost var before := Delivered(partitions[..p]);
      assert before + InPartition(partition.partition, partition.events[..0]) == before;
      for i := 0 to |partition.events|
        invariant events == BatchEvents(methods, before + InPartition(partition.partition, partition.events[..i]))
        invariant problems == ConversionProblems(methods,
                  before + InPartition(partition.partition, partition.events[..i]))
      {
        var e := partition.events[i];
        ghost var seen := before + InPartition(partition.partition, partition.events[..i]);
        ghost var next := before + InPartition(partition.partition, partition.events[..i + 1]);
        assert partition.events[..i + 1][..i] == partition.events[..i];
        assert next == seen + [PageEvent(partition.partition, e)];
        OneEventMore(methods, seen, PageEvent(partition.partition, e));
        if !IsBatchEventType(methods, e.eventTypeId) {
          continue;
        }
        if e.conversionError.None? {
          events := events + [PageEvent(partition.partition, e)];
        } else {
          problems := problems + [FailedAt(partition.partition, e.sequenceNumber, e.conversionError.value)];
        }
      }
      assert partition.events[..|partition.events|] == partition.events;
      assert partitions[..p + 1][..p] == partitions[..p];
    }
    assert partitions[..|partitions|] == partitions;
  }

  /** The events the first n batch methods finish. */
  function FinishedByBatches(
    target: ReactorObservationTarget, partitions: seq<DeliveredPartition>, n: nat): set<Invocation>
    requires n <= |target.batchMethods|
  {
    if n == 0 then {}
    else
      var observed := Batch(target, partitions, n - 1);
      FinishedByBatches(target, partitions, n - 1)
      + set x | x in observed && FinishedInBatch(target.batchMethods[n - 1], x.event)
          :: InBatch(x.partition, x.event, n - 1)
  }

  /**
   * The problems of the page's batch events: those that do not convert, then what each of the first n methods reports.
   */
  function ProblemsByBatches(
    target: ReactorObservationTarget, partitions: seq<DeliveredPartition>, canDefer: bool,
    n: nat): seq<PartitionProblem>
    requires n <= |target.batchMethods|
  {
    if n == 0 then ConversionProblems(target.batchMethods, Delivered(partitions))
    else
      ProblemsByBatches(target, partitions, canDefer, n - 1)
      + BatchProblems(target.batchMethods[n - 1], Batch(target, partitions, n - 1), canDefer)
  }

  /** Runs every batch method over the page. */
  method ObserveBatches(target: ReactorObservationTarget, partitions: seq<DeliveredPartition>, canDefer: bool)
    returns (problems: seq<PartitionProblem>, finished: set<Invocation>)
    ensures problems == ProblemsByBatches(target, partitions, canDefer, |target.batchMethods|)
    ensures finished == FinishedByBatches(target, partitions, |target.batchMethods|)
  {
    hide FinishedInBatch, BatchProblems, ConversionProblems, BatchEvents, ObservedBy, SortBySequence, Delivered;
    var events;
    events, problems := CollectBatchEvents(target.batchMethods, partitions);
    events := SortBySequence(events);
    finished := {};
    for m := 0 to |target.batchMethods|
      invariant problems == ProblemsByBatches(target, partitions, canDefer, m)
      invariant finished == FinishedByBatches(target, partitions, m)
    {
      var observed := ObservedBy(target.batchMethods[m], events);
      if observed == [] {
        EmptyBatchReportsNothing(target.batchMethods[m], canDefer);
        continue;
      }
      var reported := InvokeBatchMethod(target.batchMethods[m], observed, canDefer);
      problems := problems + reported;
      finished := finished + set x | x in observed
                  && FinishedInBatch(target.batchMethods[m], x.event)
        :: InBatch(x.partition, x.event, m);
    }
  }

  lemma {:induction false} NoEventsNoOutcomes(canDefer: bool, reports: seq<Report>)
    ensures OutcomesOf([], canDefer, reports) == []
  {
    if reports != [] {
      NoEventsNoOutcomes(canDefer, reports[..|reports| - 1]);
    }
  }

  /** A batch method that is not called because it has no events has nothing to report. */
  lemma {:induction false} EmptyBatchReportsNothing(batchMethod: BatchMethod, canDefer: bool)
    ensures BatchProblems(batchMethod, [], canDefer) == []
  {
    assert EventsOf([]) == [];
    NoEventsNoOutcomes(canDefer, batchMethod.run.reports);
  }

  lemma {:induction false} FinishedByBatchesMembers(
    target: ReactorObservationTarget, partitions: seq<DeliveredPartition>, n: nat, invocation: Invocation)
    requires n <= |target.batchMethods|
    ensures invocation in FinishedByBatches(target, partitions, n) <==>
            && invocation.InBatch? && invocation.methodIndex < n
            && PageEvent(invocation.partition, invocation.event) in Batch(target, partitions, invocation.methodIndex)
            && FinishedInBatch(target.batchMethods[invocation.methodIndex], invocation.event)
  {
    hide Batch, FinishedInBatch;
    if n > 0 {
      FinishedByBatchesMembers(target, partitions, n - 1, invocation);
      var observed := Batch(target, partitions, n - 1);
      var now := set x | x in observed && FinishedInBatch(target.batchMethods[n - 1], x.event)
        :: InBatch(x.partition, x.event, n - 1);
      assert FinishedByBatches(target, partitions, n)
        == FinishedByBatches(target, partitions, n - 1) + now;
      if invocation in now {
        var x :| x in observed && FinishedInBatch(target.batchMethods[n - 1], x.event)
                 && invocation == InBatch(x.partition, x.event, n - 1);
        assert x == PageEvent(invocation.partition, invocation.event);
      }
      if invocation.InBatch? && invocation.methodIndex == n - 1 {
        var x := PageEvent(invocation.partition, invocation.event);
        assert InBatch(x.partition, x.event, n - 1) == invocation;
      }
    }
  }

  ghost predicate ReportedByBatch(
    target: ReactorObservationTarget, partitions: seq<DeliveredPartition>, canDefer: bool, n: nat, q: PartitionProblem)
    requires n <= |target.batchMethods|
  {
    exists m :: 0 <= m < n && q in BatchProblems(target.batchMethods[m], Batch(target, partitions, m), canDefer)
  }

  lemma {:induction false} ProblemsByBatchesMembers(
    target: ReactorObservationTarget, partitions: seq<DeliveredPartition>, canDefer: bool, n: nat, q: PartitionProblem)
    requires n <= |target.batchMethods|
    ensures q in ProblemsByBatches(target, partitions, canDefer, n) <==>
            || q in ConversionProblems(target.batchMethods, Delivered(partitions))
            || ReportedByBatch(target, partitions, canDefer, n, q)
  {
    hide Batch, BatchProblems, ConversionProblems;
    if n > 0 {
      ProblemsByBatchesMembers(target, partitions, canDefer, n - 1, q);
      var before := ReportedByBatch(target, partitions, canDefer, n - 1, q);
      var now := q in BatchProblems(target.batchMethods[n - 1], Batch(target, partitions, n - 1), canDefer);
      assert ReportedByBatch(target, partitions, canDefer, n, q) <==> before || now;
    }
  }

  /** After the batch methods ran, every batch event is blocked or finished by every method that observes it. */
  lemma {:induction false} BatchesFinishOrBlock(
    target: ReactorObservationTarget, onceOnly: OnceOnly, partitions: seq<DeliveredPartition>, canDefer: bool,
    x: PageEvent)
    requires forall m :: 0 <= m < |target.batchMethods| && x in Batch(target, partitions, m) ==>
               InLastPartition(Batch(target, partitions, m), x)
    requires x in Delivered(partitions) && IsBatchEventType(target.batchMethods, x.event.eventTypeId)
    ensures var n := |target.batchMethods|;
            || Settled(target, onceOnly, x.partition, x.event, FinishedByBatches(target, partitions, n))
            || Blocked(x.partition, x.event.sequenceNumber, ProblemsByBatches(target, partitions, canDefer, n))
  {
    var n := |target.batchMethods|;
    var problems := ProblemsByBatches(target, partitions, canDefer, n);
    if x.event.conversionError.Some? {
      var q := FailedAt(x.partition, x.event.sequenceNumber, x.event.conversionError.value);
      ConversionProblemsMembers(target.batchMethods, Delivered(partitions), q);
      ProblemsByBatchesMembers(target, partitions, canDefer, n, q);
    } else if !Blocked(x.partition, x.event.sequenceNumber, problems) {
      forall m | 0 <= m < n && x.event.eventTypeId in target.batchMethods[m].eventTypes
        ensures InBatch(x.partition, x.event, m) in FinishedByBatches(target, partitions, n)
      {
        BatchMembers(target, partitions, m, x);
        var observed := Batch(target, partitions, m);
        BatchFinishesOrBlocks(target.batchMethods[m], observed, canDefer, x);
        if q :| q in BatchProblems(target.batchMethods[m], observed, canDefer) && q.partition == x.partition
                && q.at <= x.event.sequenceNumber {
          assert ReportedByBatch(target, partitions, canDefer, n, q);
          ProblemsByBatchesMembers(target, partitions, canDefer, n, q);
          assert q in problems;
        }
        FinishedByBatchesMembers(target, partitions, n, InBatch(x.partition, x.event, m));
      }
    }
  }

  // ----- a page -----

  /** What goes wrong in the per-event handlers of a page, partition by partition. */
  function PerEventProblems(target: ReactorObservationTarget, onceOnly: OnceOnly, partitions: seq<DeliveredPartition>)
    : seq<PartitionProblem>
  {
    if partitions == [] then []
    else
      var last := partitions[|partitions| - 1];
      PerEventProblems(target, onceOnly, partitions[..|partitions| - 1])
      + match PerEventProblem(target, onceOnly, last.partition,
        last.events) { case None => [] case Some(problem) => [problem] }
  }

  function FinishedPerEvent(target: ReactorObservationTarget, onceOnly: OnceOnly, partitions: seq<DeliveredPartition>)
    : set<Invocation>
  {
    if partitions == [] then {}
    else
      var last := partitions[|partitions| - 1];
      FinishedPerEvent(target, onceOnly, partitions[..|partitions| - 1])
      + PerEventFinished(target, onceOnly, last.partition, last.events)
  }

  function ProblemsWith(
    target: ReactorObservationTarget, onceOnly: OnceOnly, partitions: seq<DeliveredPartition>,
    canDefer: bool): seq<PartitionProblem>
  {
    ProblemsByBatches(target, partitions, canDefer, |target.batchMethods|)
      + PerEventProblems(target, onceOnly, partitions)
  }

  function FinishedWith(
    target: ReactorObservationTarget, onceOnly: OnceOnly, partitions: seq<DeliveredPartition>): set<Invocation>
  {
    FinishedByBatches(target, partitions, |target.batchMethods|)
      + FinishedPerEvent(target, onceOnly, partitions)
  }

  lemma {:induction false} PerEventProblemsMembers(
    target: ReactorObservationTarget, onceOnly: OnceOnly, partitions: seq<DeliveredPartition>)
    ensures forall q :: q in PerEventProblems(target, onceOnly, partitions) <==>
              exists i :: 0 <= i < |partitions| && PerEventProblem(target, onceOnly, partitions[i].partition,
                partitions[i].events) == Some(q)
  {
    hide PerEventProblem;
    if partitions != [] {
      var rest := partitions[..|partitions| - 1];
      PerEventProblemsMembers(target, onceOnly, rest);
      forall q ensures q in PerEventProblems(target, onceOnly, partitions) <==>
                  exists i :: 0 <= i < |partitions| && PerEventProblem(target, onceOnly, partitions[i].partition,
                    partitions[i].events) == Some(q) {
        if i :| 0 <= i < |partitions| && PerEventProblem(target, onceOnly, partitions[i].partition,
          partitions[i].events) == Some(q) {
          assert i < |rest| ==> rest[i] == partitions[i];
        }
        if q in PerEventProblems(target, onceOnly, rest) {
          var i :| 0 <= i < |rest| && PerEventProblem(target, onceOnly, rest[i].partition, rest[i].events) == Some(q);
          assert rest[i] == partitions[i];
        }
      }
    }
  }

  lemma {:induction false} FinishedPerEventMembers(
    target: ReactorObservationTarget, onceOnly: OnceOnly, partitions: seq<DeliveredPartition>)
    ensures forall invocation :: invocation in FinishedPerEvent(target, onceOnly, partitions) <==>
              exists i :: 0 <= i < |partitions| && invocation in PerEventFinished(target, onceOnly,
                partitions[i].partition, partitions[i].events)
  {
    hide PerEventFinished;
    if partitions != [] {
      var rest := partitions[..|partitions| - 1];
      FinishedPerEventMembers(target, onceOnly, rest);
      forall v ensures v in FinishedPerEvent(target, onceOnly, partitions) <==>
                  exists i :: 0 <= i < |partitions| && v in PerEventFinished(target, onceOnly, partitions[i].partition,
                    partitions[i].events) {
        if i :| 0 <= i < |partitions| && v in PerEventFinished(target, onceOnly, partitions[i].partition,
          partitions[i].events) {
          assert i < |rest| ==> rest[i] == partitions[i];
        }
        if v in FinishedPerEvent(target, onceOnly, rest) {
          var i :| 0 <= i < |rest| && v in PerEventFinished(target, onceOnly, rest[i].partition, rest[i].events);
          assert rest[i] == partitions[i];
        }
      }
    }
  }

  /** Every delivered event is settled or blocked by a problem. */
  ghost predicate Accounted(
    target: ReactorObservationTarget, onceOnly: OnceOnly, partitions: seq<DeliveredPartition>,
    problems: seq<PartitionProblem>, finished: set<Invocation>)
  {
    forall x :: x in Delivered(partitions) ==>
                  || Settled(target, onceOnly, x.partition, x.event, finished)
                  || Blocked(x.partition, x.event.sequenceNumber, problems)
  }

  lemma {:induction false} BlockedIsMonotone(problems: seq<PartitionProblem>, problem: PartitionProblem)
    ensures forall partition, n :: Blocked(partition, n, problems) ==> Blocked(partition, n, problems + [problem])
    ensures forall n :: problem.at <= n ==> Blocked(problem.partition, n, problems + [problem])
  {
  }

  lemma {:induction false} QuietBatchesReportNothing(
    target: ReactorObservationTarget, partitions: seq<DeliveredPartition>, canDefer: bool, n: nat)
    requires Quiet(target, partitions) && n <= |target.batchMethods|
    ensures ProblemsByBatches(target, partitions, canDefer, n) == []
  {
    if n == 0 {
      var problems := ConversionProblems(target.batchMethods, Delivered(partitions));
      if problems != [] {
        ConversionProblemsMembers(target.batchMethods, Delivered(partitions), problems[0]);
        assert false;
      }
    } else {
      QuietBatchesReportNothing(target, partitions, canDefer, n - 1);
    }
  }

  lemma {:induction false} BatchesAreGenuine(
    target: ReactorObservationTarget, onceOnly: OnceOnly, partitions: seq<DeliveredPartition>,
    finished: set<Invocation>)
    requires finished == FinishedByBatches(target, partitions, |target.batchMethods|)
    ensures Genuine(target, onceOnly, partitions, finished)
  {
    forall invocation | invocation in finished
      ensures PageEvent(invocation.partition, invocation.event) in Delivered(partitions)
              && invocation.InBatch? && invocation.methodIndex < |target.batchMethods|
              && invocation.event.eventTypeId in target.batchMethods[invocation.methodIndex].eventTypes
                 && invocation.event.conversionError.None?
              && FinishedInBatch(target.batchMethods[invocation.methodIndex], invocation.event)
    {
      FinishedByBatchesMembers(target, partitions, |target.batchMethods|, invocation);
      BatchMembers(target, partitions, invocation.methodIndex, PageEvent(invocation.partition, invocation.event));
    }
  }

  /** The recorded invocations of a page are genuine. */
  lemma {:induction false} PageIsGenuine(
    target: ReactorObservationTarget, onceOnly: OnceOnly, partitions: seq<DeliveredPartition>)
    ensures Genuine(target, onceOnly, partitions, FinishedWith(target, onceOnly, partitions))
  {
    hide FinishedByBatches, RunsPerEvent, ErrorOf, PerEventFinished, PerEventProblem, Delivered, Batch;
    BatchesAreGenuine(target, onceOnly, partitions,
      FinishedByBatches(target, partitions, |target.batchMethods|));
    FinishedPerEventMembers(target, onceOnly, partitions);
    forall v | v in FinishedPerEvent(target, onceOnly, partitions)
      ensures v.PerEvent? && PageEvent(v.partition, v.event) in Delivered(partitions)
              && RunsPerEvent(target, onceOnly, v.event) && ErrorOf(v.event).None?
    {
      var i :| 0 <= i < |partitions| && v in PerEventFinished(target, onceOnly, partitions[i].partition,
        partitions[i].events);
      PerEventOutcome(target, onceOnly, partitions[i].partition, partitions[i].events);
      DeliveredMembers(partitions, PageEvent(v.partition, v.event));
    }
  }

  /** A per-event event of a page is finished or blocked. */
  lemma {:induction false} HandlersFinishOrBlock(
    target: ReactorObservationTarget, onceOnly: OnceOnly, partitions: seq<DeliveredPartition>, x: PageEvent)
    requires DeliveredInSequence(partitions) && x in Delivered(partitions) && RunsPerEvent(target, onceOnly, x.event)
    ensures || PerEvent(x.partition, x.event) in FinishedPerEvent(target, onceOnly, partitions)
            || Blocked(x.partition, x.event.sequenceNumber, PerEventProblems(target, onceOnly, partitions))
  {
    hide RunsPerEvent, ErrorOf, PerEventFinished, PerEventProblem, Delivered;
    DeliveredMembers(partitions, x);
    var k :| 0 <= k < |partitions| && partitions[k].partition == x.partition && x.event in partitions[k].events;
    var events := partitions[k].events;
    PerEventOutcome(target, onceOnly, x.partition, events);
    FinishedPerEventMembers(target, onceOnly, partitions);
    PerEventProblemsMembers(target, onceOnly, partitions);
    var problem := PerEventProblem(target, onceOnly, x.partition, events);
    if problem.Some? {
      var i: nat :| FirstFailure(target, onceOnly, x.partition, events, i, problem.value);
      var j :| 0 <= j < |events| && events[j] == x.event;
      assert i < j ==> events[i].sequenceNumber <= events[j].sequenceNumber;
      assert problem.value in PerEventProblems(target, onceOnly, partitions);
    }
  }

  /** Each of the page's own failures is a problem of the page. */
  lemma {:induction false} OwnProblemsRemain(
    target: ReactorObservationTarget, onceOnly: OnceOnly, partitions: seq<DeliveredPartition>, canDefer: bool)
    ensures forall q :: q in OwnProblems(target, onceOnly, partitions) ==>
              q in ProblemsWith(target, onceOnly, partitions, canDefer)
  {
    hide ProblemsByBatches, PerEventProblems, ConversionProblems, Delivered;
    forall q | q in OwnProblems(target, onceOnly, partitions)
      ensures q in ProblemsWith(target, onceOnly, partitions, canDefer)
    {
      ProblemsByBatchesMembers(target, partitions, canDefer, |target.batchMethods|, q);
    }
  }

  /** When each batch holds each of its sources for one partition, its events are covered. */
  lemma {:induction false} TogetherIsCovered(
    target: ReactorObservationTarget, onceOnly: OnceOnly, partitions: seq<DeliveredPartition>)
    requires BatchesTogether(target, partitions)
    ensures BatchesCovered(target, onceOnly, partitions)
  {
    hide Batch;
    forall m | 0 <= m < |target.batchMethods|
      ensures forall x :: x in Batch(target, partitions, m) ==> InLastPartition(Batch(target, partitions, m), x)
    {
      PartitionsBySourceAgree(Batch(target, partitions, m));
    }
  }

  /** Every event of a page is settled or blocked, when the events of its batches are covered. */
  lemma {:induction false} PageIsAccounted(
    target: ReactorObservationTarget, onceOnly: OnceOnly, partitions: seq<DeliveredPartition>, canDefer: bool)
    requires DeliveredInSequence(partitions) && BatchesCovered(target, onceOnly, partitions)
    ensures Accounted(target, onceOnly, partitions, ProblemsWith(target, onceOnly, partitions, canDefer),
                      FinishedWith(target, onceOnly, partitions))
  {
    hide DeliveredInSequence, Delivered, RunsPerEvent, IsBatchEventType, ProblemsByBatches, FinishedByBatches,
      PerEventProblems, FinishedPerEvent, OwnProblems, Batch, InLastPartition;
    OwnProblemsRemain(target, onceOnly, partitions, canDefer);
    var problems, finished := ProblemsWith(target, onceOnly, partitions, canDefer),
      FinishedWith(target, onceOnly, partitions);
    forall x | x in Delivered(partitions)
      ensures Settled(target, onceOnly, x.partition, x.event, finished)
              || Blocked(x.partition, x.event.sequenceNumber, problems)
    {
      if Blocked(x.partition, x.event.sequenceNumber, OwnProblems(target, onceOnly, partitions)) {
        assert Blocked(x.partition, x.event.sequenceNumber, problems);
      } else if IsBatchEventType(target.batchMethods, x.event.eventTypeId) {
        BatchesFinishOrBlock(target, onceOnly, partitions, canDefer, x);
      } else if RunsPerEvent(target, onceOnly, x.event) {
        HandlersFinishOrBlock(target, onceOnly, partitions, x);
      }
    }
  }

  lemma {:induction false} NoFailureNoProblem(
    target: ReactorObservationTarget, onceOnly: OnceOnly, partitions: seq<DeliveredPartition>)
    requires forall x :: x in Delivered(partitions) ==> ErrorOf(x.event).None?
    ensures PerEventProblems(target, onceOnly, partitions) == []
  {
    hide ErrorOf, Delivered, PerEventProblem;
    var problems := PerEventProblems(target, onceOnly, partitions);
    assert problems != [] ==> problems[0] in problems;
    PerEventProblemsMembers(target, onceOnly, partitions);
    forall i | 0 <= i < |partitions|
      ensures PerEventProblem(target, onceOnly, partitions[i].partition, partitions[i].events).None?
    {
      PerEventOutcome(target, onceOnly, partitions[i].partition, partitions[i].events);
      forall e | e in partitions[i].events ensures ErrorOf(e).None? {
        DeliveredMembers(partitions, PageEvent(partitions[i].partition, e));
      }
    }
  }

  lemma {:induction false} QuietPageHasNoProblem(
    target: ReactorObservationTarget, onceOnly: OnceOnly, partitions: seq<DeliveredPartition>, canDefer: bool)
    requires Quiet(target, partitions)
    ensures ProblemsWith(target, onceOnly, partitions, canDefer) == []
  {
    QuietBatchesReportNothing(target, partitions, canDefer, |target.batchMethods|);
    NoFailureNoProblem(target, onceOnly, partitions);
  }

  lemma {:induction false} WithoutBatchMethods(
    target: ReactorObservationTarget, partitions: seq<DeliveredPartition>, canDefer: bool)
    requires target.batchMethods == []
    ensures ProblemsByBatches(target, partitions, canDefer, 0) == []
            && FinishedByBatches(target, partitions, 0) == {}
  {
    var problems := ConversionProblems(target.batchMethods, Delivered(partitions));
    assert problems != [] ==> problems[0] in problems;
    if problems != [] {
      ConversionProblemsMembers(target.batchMethods, Delivered(partitions), problems[0]);
    }
  }

  /** Runs the batch methods over the page, then the per-event handlers of each partition. */
  method ObserveWith(
    target: ReactorObservationTarget, onceOnly: OnceOnly, partitions: seq<DeliveredPartition>, canDefer: bool)
    returns (problems: seq<PartitionProblem>, finished: set<Invocation>)
    ensures problems == ProblemsWith(target, onceOnly, partitions, canDefer)
    ensures finished == FinishedWith(target, onceOnly, partitions)
    ensures Genuine(target, onceOnly, partitions, finished)
    ensures DeliveredInSequence(partitions) && BatchesCovered(target, onceOnly, partitions)
            ==> Accounted(target, onceOnly, partitions, problems, finished)
    ensures Quiet(target, partitions) ==> problems == []
  {
    hide Genuine, Accounted, Delivered, ProblemsByBatches, FinishedByBatches, Quiet, DeliveredInSequence,
      BatchesCovered;
    problems, finished := [], {};
    if |target.batchMethods| > 0 {
      problems, finished := ObserveBatches(target, partitions, canDefer);
    } else {
      WithoutBatchMethods(target, partitions, canDefer);
    }
    ghost var fromBatches, byBatches := problems, finished;
    for p := 0 to |partitions|
      invariant problems == fromBatches + PerEventProblems(target, onceOnly, partitions[..p])
      invariant finished == byBatches + FinishedPerEvent(target, onceOnly, partitions[..p])
    {
      assert partitions[..p + 1][..p] == partitions[..p];
      var problem, done := ObservePartition(target, onceOnly, partitions[p]);
      finished := finished + done;
      if problem.Some? {
        problems := problems + [problem.value];
      }
    }
    assert partitions[..|partitions|] == partitions;
    PageIsGenuine(target, onceOnly, partitions);
    if DeliveredInSequence(partitions) && BatchesCovered(target, onceOnly, partitions) {
      PageIsAccounted(target, onceOnly, partitions, canDefer);
    }
    if Quiet(target, partitions) {
      QuietPageHasNoProblem(target, onceOnly, partitions, canDefer);
    }
  }

  /** Whether any event of the page has a method to invoke, so that an instance must be activated. */
  predicate AnyInvocable(target: ReactorObservationTarget, partitions: seq<DeliveredPartition>) {
    exists i, j :: && 0 <= i < |partitions| && 0 <= j < |partitions[i].events|
                   && var e := partitions[i].events[j];
                      || (e.eventTypeId != "" && IsBatchEventType(target.batchMethods, e.eventTypeId))
                      || HasHandler(target.entries, target.onceOnly, e)
  }

  /** The once-only methods of the instance that observes the page. */
  function ObservingInstance(
    target: ReactorObservationTarget, partitions: seq<DeliveredPartition>, activation: Activation): OnceOnly
  {
    if target.hasActivator && activation.Activates? && AnyInvocable(target, partitions) then activation.onceOnly
      else target.onceOnly
  }

  /** The activation failure of each partition. */
  function ActivationFailures(partitions: seq<DeliveredPartition>, problems: seq<PartitionProblem>, error: string)
    : seq<PartitionProblem>
  {
    seq(|partitions|, i requires 0 <= i < |partitions| => ActivationFailure(partitions[i], problems, error))
  }

  /** Failing every partition at its first event blocks every event. */
  lemma {:induction false} FirstEventFailuresBlockAll(
    partitions: seq<DeliveredPartition>, problems: seq<PartitionProblem>, x: PageEvent)
    requires DeliveredInSequence(partitions) && |problems| == |partitions| && x in Delivered(partitions)
    requires forall i :: 0 <= i < |partitions| ==>
                           problems[i].partition == partitions[i].partition
                             && problems[i].at == FirstSequenceNumberOf(partitions[i])
    ensures Blocked(x.partition, x.event.sequenceNumber, problems)
  {
    DeliveredMembers(partitions, x);
    var i :| 0 <= i < |partitions| && partitions[i].partition == x.partition && x.event in partitions[i].events;
    var j :| 0 <= j < |partitions[i].events| && partitions[i].events[j] == x.event;
    assert problems[i] in problems;
    assert 0 < j ==> partitions[i].events[0].sequenceNumber <= partitions[i].events[j].sequenceNumber;
  }

  /** Whether the page is observed by an instance activated for this delivery. */
  predicate NeedsActivation(target: ReactorObservationTarget, partitions: seq<DeliveredPartition>) {
    target.hasActivator && AnyInvocable(target, partitions)
  }

  /** What goes wrong while observing: the problems of the instance, or the failure to activate or to complete it. */
  function ObservedProblems(
    target: ReactorObservationTarget, partitions: seq<DeliveredPartition>, canDefer: bool, activation: Activation)
    : seq<PartitionProblem>
  {
    var observed := ProblemsWith(target, ObservingInstance(target, partitions, activation), partitions, canDefer);
    if !NeedsActivation(target, partitions) then observed
    else match activation
      case ActivationFails(error) => ActivationFailures(partitions, [], error)
      case Activates(_, None) => observed
      case Activates(_, Some(error)) => ActivationFailures(partitions, observed, error)
  }

  function ObservedFinished(
    target: ReactorObservationTarget, partitions: seq<DeliveredPartition>, activation: Activation)
    : set<Invocation>
  {
    if NeedsActivation(target, partitions) && activation.ActivationFails? then {}
    else FinishedWith(target, ObservingInstance(target, partitions, activation), partitions)
  }

  /**
   * The instance a page is observed with: the one activated for it, when activating is possible and some event has a
   * batch method or a handler on the shared instance, and otherwise the shared one.
   */
  lemma {:induction false} InstanceByActivation(
    target: ReactorObservationTarget, partitions: seq<DeliveredPartition>, activation: Activation)
    ensures var invocable := exists i, j :: 0 <= i < |partitions| && 0 <= j < |partitions[i].events|
                               && Invocable(target, partitions[i].events[j]);
            && (NeedsActivation(target, partitions) <==> target.hasActivator && invocable)
            && (target.hasActivator && invocable && activation.Activates? ==>
                  ObservingInstance(target, partitions, activation) == activation.onceOnly)
            && (!(target.hasActivator && invocable) || activation.ActivationFails? ==>
                  ObservingInstance(target, partitions, activation) == target.onceOnly)
  {
    hide IsBatchEventType, HasHandler;
    forall e: AppendedEvent ensures Invocable(target, e) <==>
      || (e.eventTypeId != "" && IsBatchEventType(target.batchMethods, e.eventTypeId))
      || HasHandler(target.entries, target.onceOnly, e)
    {
      BatchTypeByMethod(target.batchMethods, e.eventTypeId);
    }
  }

  /** A batch method or a handler of the shared instance would be invoked with the event. */
  ghost predicate Invocable(target: ReactorObservationTarget, e: AppendedEvent) {
    || (|e.eventTypeId| > 0
        && exists m :: 0 <= m < |target.batchMethods| && e.eventTypeId in target.batchMethods[m].eventTypes)
    || HasHandler(target.entries, target.onceOnly, e)
  }

  lemma {:induction false} BatchTypeByMethod(methods: seq<BatchMethod>, id: string)
    ensures IsBatchEventType(methods, id) <==> exists m :: 0 <= m < |methods| && id in methods[m].eventTypes
  {
  }

  /**
   * When activating or completing the instance fails, each partition fails at its first event with the messages of its
   * earliest reported problem, if any, and the failure after them; nothing was reported when activating failed.
   */
  lemma {:induction false} FailuresByCause(
    target: ReactorObservationTarget, partitions: seq<DeliveredPartition>, canDefer: bool, activation: Activation,
    i: nat)
    requires NeedsActivation(target, partitions) && i < |partitions|
    requires activation.ActivationFails? || activation.completionError.Some?
    ensures var failures := ObservedProblems(target, partitions, canDefer, activation);
            && |failures| == |partitions|
            && (activation.ActivationFails? ==> IsFailureAfter(failures[i], partitions[i], [], activation.error))
            && (activation.Activates? ==>
                  IsFailureAfter(failures[i], partitions[i],
                    ProblemsWith(target, activation.onceOnly, partitions, canDefer), activation.completionError.value))
  {
    hide ProblemsWith, AnyInvocable, IsFailureAfter, ActivationFailure;
    var error := if activation.ActivationFails? then activation.error else activation.completionError.value;
    FailureAfter(partitions[i], [], error);
    FailureAfter(partitions[i], ProblemsWith(target, ObservingInstance(target, partitions, activation), partitions,
      canDefer), error);
  }

  /** A failure at the first event, with the messages of the earliest reported problem and the error after them. */
  ghost predicate IsFailureAfter(
    failure: PartitionProblem, partition: DeliveredPartition, reported: seq<PartitionProblem>, error: string)
  {
    && failure.partition == partition.partition && failure.state == Failed && failure.retryAfterMilliseconds == 0.0
    && failure.at == (if partition.events == [] then 0 else partition.events[0].sequenceNumber)
    && ((forall q :: q in reported ==> q.partition != partition.partition) ==> failure.exceptionMessages == [error])
    && (forall k: nat :: IsFirstOfTheEarliest(partition.partition, reported, k) ==>
          failure.exceptionMessages == reported[k].exceptionMessages + [error])
  }

  lemma {:induction false} FailureAfter(
    partition: DeliveredPartition, reported: seq<PartitionProblem>, error: string)
    ensures IsFailureAfter(ActivationFailure(partition, reported, error), partition, reported, error)
  {
    hide Earliest;
    EarliestIsMinimal(partition.partition, reported);
    forall j: nat, k: nat | IsFirstOfTheEarliest(partition.partition, reported, j)
      && IsFirstOfTheEarliest(partition.partition, reported, k) ensures j == k {}
  }

  lemma {:induction false} FailuresBlockAll(
    target: ReactorObservationTarget, onceOnly: OnceOnly, partitions: seq<DeliveredPartition>,
    problems: seq<PartitionProblem>, finished: set<Invocation>)
    requires DeliveredInSequence(partitions) && |problems| == |partitions|
    requires forall i :: 0 <= i < |partitions| ==>
                           problems[i].partition == partitions[i].partition
                             && problems[i].at == FirstSequenceNumberOf(partitions[i])
    ensures Accounted(target, onceOnly, partitions, problems, finished)
  {
    forall x | x in Delivered(partitions) ensures Blocked(x.partition, x.event.sequenceNumber, problems) {
      FirstEventFailuresBlockAll(partitions, problems, x);
    }
  }

  /** Observing accounts for every event, whether an instance is activated, fails to activate or fails to complete. */
  lemma {:induction false} ObservationIsAccounted(
    target: ReactorObservationTarget, partitions: seq<DeliveredPartition>, canDefer: bool, activation: Activation)
    requires DeliveredInSequence(partitions)
             && BatchesCovered(target, ObservingInstance(target, partitions, activation), partitions)
    ensures Accounted(target, ObservingInstance(target, partitions, activation), partitions,
                      ObservedProblems(target, partitions, canDefer, activation),
                        ObservedFinished(target, partitions, activation))
  {
    hide DeliveredInSequence, BatchesCovered, Accounted, ProblemsWith, FinishedWith, AnyInvocable;
    var onceOnly := ObservingInstance(target, partitions, activation);
    var problems, finished := ObservedProblems(target, partitions, canDefer, activation),
      ObservedFinished(target, partitions, activation);
    PageIsAccounted(target, onceOnly, partitions, canDefer);
    if NeedsActivation(target, partitions) && (activation.ActivationFails? || activation.completionError.Some?) {
      FailuresBlockAll(target, onceOnly, partitions, problems, finished);
    }
  }

  lemma {:induction false} ObservationIsGenuine(
    target: ReactorObservationTarget, partitions: seq<DeliveredPartition>, activation: Activation)
    ensures Genuine(target, ObservingInstance(target, partitions, activation), partitions,
                    ObservedFinished(target, partitions, activation))
  {
    PageIsGenuine(target, ObservingInstance(target, partitions, activation), partitions);
  }

  /**
   * Observes the page with the shared instance, or with one activated for this delivery and completed before
   * acknowledgement.
   */
  method Observe(
    target: ReactorObservationTarget, partitions: seq<DeliveredPartition>, canDefer: bool, activation: Activation)
    returns (problems: seq<PartitionProblem>, finished: set<Invocation>)
    ensures problems == ObservedProblems(target, partitions, canDefer, activation)
    ensures finished == ObservedFinished(target, partitions, activation)
    ensures Genuine(target, ObservingInstance(target, partitions, activation), partitions, finished)
    ensures && DeliveredInSequence(partitions)
            && BatchesCovered(target, ObservingInstance(target, partitions, activation), partitions)
            ==> Accounted(target, ObservingInstance(target, partitions, activation), partitions, problems, finished)
    ensures && Quiet(target, partitions)
            && (target.hasActivator ==> activation.Activates? && activation.completionError.None?)
            ==> problems == []
  {
    hide Genuine, Accounted, Quiet, DeliveredInSequence, BatchesCovered, ProblemsWith, FinishedWith, AnyInvocable;
    ObservationIsGenuine(target, partitions, activation);
    if DeliveredInSequence(partitions)
       && BatchesCovered(target, ObservingInstance(target, partitions, activation), partitions) {
      ObservationIsAccounted(target, partitions, canDefer, activation);
    }
    if !target.hasActivator || !AnyInvocable(target, partitions) {
      problems, finished := ObserveWith(target, target.onceOnly, partitions, canDefer);
      return;
    }
    var error;
    match activation {
      case ActivationFails(failure) =>
        problems, finished, error := [], {}, failure;
      case Activates(onceOnly, completionError) =>
        problems, finished := ObserveWith(target, onceOnly, partitions, canDefer);
        if completionError.None? {
          return;
        }
        error := completionError.value;
    }
    problems := ActivationFailures(partitions, problems, error);
  }

  // ----- a delivery -----

  function NotificationFailures(partitions: seq<DeliveredPartition>, messages: seq<string>): seq<PartitionProblem> {
    seq(|partitions|, i requires 0 <= i < |partitions| =>
      PartitionProblem(partitions[i].partition, FirstSequenceNumberOf(partitions[i]), Failed, messages, 0.0))
  }

  function DispatchProblems(target: ReactorObservationTarget, message: EventsToObserve, environment: Environment)
    : seq<PartitionProblem>
  {
    match environment.notificationError
    case Some(messages) => NotificationFailures(PartitionsOf(message), messages)
    case None => ObservedProblems(target, PartitionsOf(message), IsPage(message), environment.activation)
  }

  function DispatchFinished(target: ReactorObservationTarget, message: EventsToObserve, environment: Environment)
    : set<Invocation>
  {
    if environment.notificationError.Some? then {}
    else ObservedFinished(target, PartitionsOf(message), environment.activation)
  }

  function DispatchOutcomes(target: ReactorObservationTarget, message: EventsToObserve, environment: Environment)
    : seq<PartitionOutcome>
  {
    Settle(PartitionsOf(message), DispatchProblems(target, message, environment))
  }

  /** When announcing the delivery fails, each partition fails at its first event with the messages; nothing runs. */
  lemma {:induction false} NotificationFailsAll(
    target: ReactorObservationTarget, message: EventsToObserve, environment: Environment, i: nat)
    requires environment.notificationError.Some? && i < |PartitionsOf(message)|
    ensures var partition := PartitionsOf(message)[i];
            var failures := DispatchProblems(target, message, environment);
            && |failures| == |PartitionsOf(message)|
            && failures[i] == PartitionProblem(partition.partition,
                 if partition.events == [] then 0 else partition.events[0].sequenceNumber, Failed,
                 environment.notificationError.value, 0.0)
            && DispatchFinished(target, message, environment) == {}
  {
  }

  /** The events of the page's batches are covered, for the instance that observes the page. */
  ghost predicate Covered(target: ReactorObservationTarget, message: EventsToObserve, environment: Environment) {
    BatchesCovered(target, ObservingInstance(target, PartitionsOf(message), environment.activation),
      PartitionsOf(message))
  }

  /** Acknowledgement soundness: an event that the settled outcomes acknowledge has nothing left to do. */
  ghost predicate Sound(target: ReactorObservationTarget, message: EventsToObserve, environment: Environment) {
    forall i, e :: 0 <= i < |PartitionsOf(message)| && e in PartitionsOf(message)[i].events
                   && Acknowledged(target, message, environment, i, e) ==>
      Settled(target, ObservingInstance(target, PartitionsOf(message), environment.activation),
        PartitionsOf(message)[i].partition, e,
              DispatchFinished(target, message, environment))
  }

  predicate Acknowledged(
    target: ReactorObservationTarget, message: EventsToObserve, environment: Environment, i: nat, e: AppendedEvent)
    requires i < |PartitionsOf(message)|
  {
    var through := AcknowledgedThrough(DispatchOutcomes(target, message, environment)[i]);
    through.Some? && e.sequenceNumber <= through.value
  }

  /**
   * A page is answered with the outcome of each of its partitions in order, the delay as whole milliseconds, and a
   * legacy delivery with its one outcome, a deferral reported as a failure.
   */
  lemma {:induction false} ResultCarriesOutcomes(message: EventsToObserve, problems: seq<PartitionProblem>)
    ensures var outcomes := Settle(PartitionsOf(message), problems);
            var result := ToReactorResult(message, outcomes);
            && result.deliveryId == message.deliveryId
            && (message.partitions != [] ==>
                  && result.state == None && result.partition == "" && |result.partitions| == |message.partitions|
                  && result.lastSuccessfulObservation == 0 && result.exceptionMessages == []
                  && |outcomes| == |message.partitions|
                  && forall i :: 0 <= i < |outcomes| ==>
                       outcomes[i].partition == message.partitions[i].partition
                       && Carries(result.partitions[i], outcomes[i]))
            && (message.partitions == [] ==>
                  && result.partition == message.partition && result.partitions == [] && |outcomes| == 1
                  && result.state == Some(if outcomes[0].state.Success? then Success else Failed)
                  && result.lastSuccessfulObservation == outcomes[0].lastSuccessfulObservation
                  && result.exceptionMessages == outcomes[0].exceptionMessages)
  {
    hide ToPartitionResult, SettlePartition;
    var outcomes := Settle(PartitionsOf(message), problems);
    forall i | 0 <= i < |outcomes| ensures Carries(ToPartitionResult(outcomes[i]), outcomes[i]) {
      CarriesOutcome(outcomes[i]);
    }
    forall i | 0 <= i < |message.partitions| ensures outcomes[i].partition == message.partitions[i].partition {
      SettlesItself(message.partitions[i].partition, SequenceNumbersOf(message.partitions[i].events), problems);
    }
  }

  ghost predicate Carries(result: PartitionResult, outcome: PartitionOutcome) {
    && result.partition == outcome.partition && result.state == outcome.state
    && result.lastSuccessfulObservation == outcome.lastSuccessfulObservation
    && result.exceptionMessages == outcome.exceptionMessages
    && IsDelay(outcome.retryAfterMilliseconds, result.retryAfterMilliseconds as real)
  }

  lemma {:induction false} CarriesOutcome(outcome: PartitionOutcome)
    ensures Carries(ToPartitionResult(outcome), outcome)
  {
    RoundsToDelay(outcome.retryAfterMilliseconds);
  }

  lemma {:induction false} SettlesItself(partition: string, sequenceNumbers: seq<nat>, problems: seq<PartitionProblem>)
    ensures SettlePartition(partition, sequenceNumbers, problems).partition == partition
  {
  }

  /** What an accounted-for page acknowledges is settled. */
  lemma {:induction false} AcknowledgedIsSettled(
    target: ReactorObservationTarget, onceOnly: OnceOnly, partitions: seq<DeliveredPartition>,
    problems: seq<PartitionProblem>, finished: set<Invocation>, i: nat, e: AppendedEvent)
    requires DeliveredInSequence(partitions) && Accounted(target, onceOnly, partitions, problems, finished)
    requires i < |partitions| && e in partitions[i].events
    requires var through := AcknowledgedThrough(Settle(partitions, problems)[i]);
             through.Some? && e.sequenceNumber <= through.value
    ensures Settled(target, onceOnly, partitions[i].partition, e, finished)
  {
    var x := PageEvent(partitions[i].partition, e);
    DeliveredMembers(partitions, x);
    var numbers := SequenceNumbersOf(partitions[i].events);
    var j :| 0 <= j < |partitions[i].events| && partitions[i].events[j] == e;
    assert numbers[j] == e.sequenceNumber;
    AcknowledgesExactlyTheUnblocked(partitions[i].partition, numbers, problems, e.sequenceNumber);
  }

  /**
   * Whatever throws, fails, is deferred or is skipped, a dispatch is sound when each event of a batch lies in the
   * partition the batch has for its source or is blocked by the page's own failures.
   */
  lemma {:induction false} DispatchIsSound(
    target: ReactorObservationTarget, message: EventsToObserve, environment: Environment)
    requires DeliveredInSequence(PartitionsOf(message)) && Covered(target, message, environment)
    ensures Sound(target, message, environment)
  {
    hide DeliveredInSequence, BatchesCovered, Accounted, Settled, ObservedProblems, ObservedFinished,
      AcknowledgedThrough, Settle;
    var partitions := PartitionsOf(message);
    var onceOnly := ObservingInstance(target, partitions, environment.activation);
    var problems, finished := DispatchProblems(target, message, environment),
      DispatchFinished(target, message, environment);
    assert Accounted(target, onceOnly, partitions, problems, finished) by {
      if environment.notificationError.Some? {
        FailuresBlockAll(target, onceOnly, partitions, problems, finished);
      } else {
        ObservationIsAccounted(target, partitions, IsPage(message), environment.activation);
      }
    }
    forall i, e | 0 <= i < |partitions| && e in partitions[i].events && Acknowledged(target, message, environment, i, e)
      ensures Settled(target, onceOnly, partitions[i].partition, e, finished)
    {
      AcknowledgedIsSettled(target, onceOnly, partitions, problems, finished, i, e);
    }
  }

  /**
   * An event that a batch method reported, or any later one of the partition the batch has for its source, is not
   * acknowledged; nor is any from the first event on that the batch holds of a source reported as a whole.
   */
  lemma {:induction false} ReportedEventIsNotAcknowledged(
    target: ReactorObservationTarget, message: EventsToObserve, environment: Environment, m: nat, report: Report,
    at: nat, k: nat, i: nat, e: AppendedEvent)
    requires DeliveredInSequence(PartitionsOf(message))
    requires m < |target.batchMethods| && target.batchMethods[m].run.ending.Returned?
             && report in target.batchMethods[m].run.reports
    requires var observed := Batch(target, PartitionsOf(message), m);
             && IsLastOfSource(observed, report.target.eventSourceId, k)
             && PointsAt(EventsOf(observed), report.target, at)
             && i < |PartitionsOf(message)| && PartitionsOf(message)[i].partition == observed[k].partition
    requires e in PartitionsOf(message)[i].events && at <= e.sequenceNumber
    ensures !Acknowledged(target, message, environment, i, e)
  {
    hide PartitionsOf, Batch, IsReported, PointsAt, BatchProblems, ObservedProblems, DeliveredInSequence, Blocked,
      Delivered, SettlePartition;
    var partitions, problems := PartitionsOf(message), DispatchProblems(target, message, environment);
    var x := PageEvent(partitions[i].partition, e);
    DeliveredMembers(partitions, x);
    assert Blocked(x.partition, e.sequenceNumber, problems) by {
      if environment.notificationError.Some? {
        FirstEventFailuresBlockAll(partitions, problems, x);
      } else {
        var q := ReportStandsForAProblem(Batch(target, partitions, m), IsPage(message), report, k);
        ReportedIsFrom(Batch(target, partitions, m), IsPage(message), report, q, at);
        BatchProblemsAreReports(target.batchMethods[m], Batch(target, partitions, m), IsPage(message), q);
        ReportedIsObserved(target, partitions, IsPage(message), environment.activation, m, q, x);
      }
    }
    BlockedIsNotAcknowledged(partitions, problems, i, e);
  }

  lemma {:induction false} ReportedIsFrom(
    observed: seq<PageEvent>, canDefer: bool, report: Report, q: PartitionProblem, at: nat)
    requires IsReported(observed, canDefer, report, q) && PointsAt(EventsOf(observed), report.target, at)
    ensures q.at == at
  {
    hide PointsAt;
    PointsAtOnePlace(EventsOf(observed), report.target, q.at, at);
  }

  /** A problem that a batch method reports blocks, whatever becomes of the instance that observes the page. */
  lemma {:induction false} ReportedIsObserved(
    target: ReactorObservationTarget, partitions: seq<DeliveredPartition>, canDefer: bool, activation: Activation,
    m: nat, q: PartitionProblem, x: PageEvent)
    requires DeliveredInSequence(partitions) && x in Delivered(partitions)
    requires m < |target.batchMethods|
             && q in BatchProblems(target.batchMethods[m], Batch(target, partitions, m), canDefer)
    requires q.partition == x.partition && q.at <= x.event.sequenceNumber
    ensures Blocked(x.partition, x.event.sequenceNumber, ObservedProblems(target, partitions, canDefer, activation))
  {
    hide DeliveredInSequence, Delivered, Batch, BatchProblems, ProblemsByBatches, PerEventProblems, AnyInvocable;
    var problems := ObservedProblems(target, partitions, canDefer, activation);
    if NeedsActivation(target, partitions) && (activation.ActivationFails? || activation.completionError.Some?) {
      FirstEventFailuresBlockAll(partitions, problems, x);
    } else {
      assert ReportedByBatch(target, partitions, canDefer, |target.batchMethods|, q);
      ProblemsByBatchesMembers(target, partitions, canDefer, |target.batchMethods|, q);
      assert q in problems;
    }
  }

  lemma {:induction false} BlockedIsNotAcknowledged(
    partitions: seq<DeliveredPartition>, problems: seq<PartitionProblem>, i: nat, e: AppendedEvent)
    requires DeliveredInSequence(partitions) && i < |partitions| && e in partitions[i].events
    requires Blocked(partitions[i].partition, e.sequenceNumber, problems)
    ensures var through := AcknowledgedThrough(Settle(partitions, problems)[i]);
            through.None? || through.value < e.sequenceNumber
  {
    hide SettlePartition, Blocked;
    var numbers := SequenceNumbersOf(partitions[i].events);
    var j :| 0 <= j < |partitions[i].events| && partitions[i].events[j] == e;
    assert numbers[j] == e.sequenceNumber;
    AcknowledgesExactlyTheUnblocked(partitions[i].partition, numbers, problems, e.sequenceNumber);
  }

  /** Dispatches a delivery and says what to send back to the kernel. */
  method Dispatch(target: ReactorObservationTarget, message: EventsToObserve, environment: Environment)
    returns (result: ReactorResult, outcomes: seq<PartitionOutcome>, finished: set<Invocation>)
    ensures outcomes == DispatchOutcomes(target, message, environment)
            && finished == DispatchFinished(target, message, environment)
    ensures outcomes != [] && result == ToReactorResult(message, outcomes)
    ensures Genuine(target, ObservingInstance(target, PartitionsOf(message), environment.activation),
            PartitionsOf(message), finished)
    ensures DeliveredInSequence(PartitionsOf(message)) && Covered(target, message, environment) ==>
            Sound(target, message, environment)
    ensures && Quiet(target, PartitionsOf(message)) && environment.notificationError.None?
            && (target.hasActivator ==>
               environment.activation.Activates? && environment.activation.completionError.None?)
            ==> outcomes == Settle(PartitionsOf(message), [])
  {
    hide DeliveredInSequence, BatchesCovered, Sound, Quiet, ObservedProblems, ObservedFinished;
    var partitions := PartitionsOf(message);
    var problems;
    match environment.notificationError {
      case Some(messages) =>
        problems, finished := NotificationFailures(partitions, messages), {};
      case None =>
        problems, finished := Observe(target, partitions, IsPage(message), environment.activation);
    }
    outcomes := Settle(partitions, problems);
    result := ToReactorResult(message, outcomes);
    if DeliveredInSequence(partitions) && Covered(target, message, environment) {
      DispatchIsSound(target, message, environment);
    }
  }

  // ----- legacy deliveries -----

  lemma {:induction false} FailedAllFail(observed: seq<PageEvent>, error: string)
    ensures forall q :: q in FailAll(observed, error) ==> q.state == Failed
  {
    if observed != [] {
      FailedAllFail(observed[..|observed| - 1], error);
    }
  }

  /** When the kernel takes no deferrals, a batch method's problems are all failures. */
  lemma {:induction false} BatchProblemsNeverDefer(batchMethod: BatchMethod, observed: seq<PageEvent>)
    ensures forall q :: q in BatchProblems(batchMethod, observed, false) ==> q.state == Failed
  {
    forall q | q in BatchProblems(batchMethod, observed, false) ensures q.state == Failed {
      match batchMethod.run.ending
      case Returned =>
        var outcomes := OutcomesOf(EventsOf(observed), false, batchMethod.run.reports);
        var i :| 0 <= i < |outcomes| && q == ProblemOf(PartitionsBySource(observed), outcomes[i]);
        OutcomesAreLocatedReports(EventsOf(observed), false, batchMethod.run.reports, outcomes[i]);
      case ReturnedAValue(error) => FailedAllFail(observed, error);
      case Threw(error) => FailedAllFail(observed, error);
    }
  }

  ghost predicate AllFailed(problems: seq<PartitionProblem>) {
    forall q :: q in problems ==> q.state == Failed
  }

  lemma {:induction false} LegacyObservationNeverDefers(
    target: ReactorObservationTarget, onceOnly: OnceOnly, partitions: seq<DeliveredPartition>)
    ensures AllFailed(ProblemsWith(target, onceOnly, partitions, false))
  {
    hide ProblemsByBatches, PerEventProblems, BatchProblems, ConversionProblems, PerEventProblem, Batch, ErrorOf,
      RunsPerEvent, Delivered;
    var n := |target.batchMethods|;
    PerEventProblemsMembers(target, onceOnly, partitions);
    forall q | q in ProblemsWith(target, onceOnly, partitions, false) ensures q.state == Failed {
      if q in ProblemsByBatches(target, partitions, false, n) {
        ProblemsByBatchesMembers(target, partitions, false, n, q);
        ConversionProblemsMembers(target.batchMethods, Delivered(partitions), q);
        if m :| 0 <= m < n && q in BatchProblems(target.batchMethods[m], Batch(target, partitions, m), false) {
          BatchProblemsNeverDefer(target.batchMethods[m], Batch(target, partitions, m));
        }
      } else {
        var i :| 0 <= i < |partitions| && PerEventProblem(target, onceOnly, partitions[i].partition,
          partitions[i].events) == Some(q);
        PerEventOutcome(target, onceOnly, partitions[i].partition, partitions[i].events);
        var j: nat :| FirstFailure(target, onceOnly, partitions[i].partition, partitions[i].events, j, q);
      }
    }
  }

  /**
   * A legacy result is its one settled outcome: the outcome is never a deferral, so reporting deferrals as failures
   * hides nothing, and the acknowledgement is the outcome's.
   */
  lemma {:induction false} LegacyDeliveryNeverDefers(
    target: ReactorObservationTarget, message: EventsToObserve, environment: Environment)
    requires !IsPage(message)
    ensures var outcomes := DispatchOutcomes(target, message, environment);
            && |outcomes| == 1 && outcomes[0].state != Deferred
            && ToReactorResult(message, outcomes)
               == ReactorResult(message.partition, Some(outcomes[0].state), outcomes[0].lastSuccessfulObservation,
                                outcomes[0].exceptionMessages, message.deliveryId, [])
  {
    hide ProblemsWith, AnyInvocable;
    var partitions, problems := PartitionsOf(message), DispatchProblems(target, message, environment);
    LegacyObservationNeverDefers(target, ObservingInstance(target, partitions, environment.activation), partitions);
    assert AllFailed(problems);
    EarliestIsMinimal(message.partition, problems);
  }
}
