/** Exactly when a page can be acknowledged without having been handled, over every run of its batch methods. */
module AcknowledgementExactness {
  import opened Wrappers
  import opened PartitionSettlement
  import opened EventBatches
  import opened ReactorPageDispatcher

  /** The target whose batch methods do what is given, each in its one call. */
  function WithRuns(target: ReactorObservationTarget, runs: seq<BatchRun>): ReactorObservationTarget
    requires |runs| == |target.batchMethods|
  {
    target.(batchMethods := seq(|runs|, i requires 0 <= i < |runs| => target.batchMethods[i].(run := runs[i])))
  }

  /** The delivery is announced, and an instance activated for it is completed. */
  predicate Undisturbed(target: ReactorObservationTarget, environment: Environment) {
    && environment.notificationError.None?
    && (target.hasActivator ==> environment.activation.Activates? && environment.activation.completionError.None?)
  }

  /**
   * When the delivery is announced, and the instance it needs is activated and completed, the problems are those of
   * observing the page with that instance.
   */
  lemma {:induction false} UndisturbedIsObserved(
    target: ReactorObservationTarget, message: EventsToObserve, environment: Environment)
    requires environment.notificationError == None
    requires !target.hasActivator || exists onceOnly :: environment.activation == Activates(onceOnly, None)
    ensures Undisturbed(target, environment)
    ensures DispatchProblems(target, message, environment)
         == ProblemsWith(target, ObservingInstance(target, PartitionsOf(message), environment.activation),
              PartitionsOf(message), IsPage(message))
  {
    hide ProblemsWith, AnyInvocable, IsPage, PartitionsOf;
  }

  /** No event is numbered like the sentinel for "nothing observed". */
  ghost predicate Numbered(partitions: seq<DeliveredPartition>) {
    forall x :: x in Delivered(partitions) ==> x.event.sequenceNumber != SEQUENCE_NUMBER_UNAVAILABLE
  }

  /** Every event converts and its handlers succeed. */
  ghost predicate Untroubled(partitions: seq<DeliveredPartition>) {
    forall x :: x in Delivered(partitions) ==> ErrorOf(x.event).None?
  }

  /** What a batch method is called with does not depend on what the methods do. */
  lemma {:induction false} RunsLeaveBatchEvents(
    methods: seq<BatchMethod>, others: seq<BatchMethod>, events: seq<PageEvent>)
    requires |methods| == |others|
    requires forall m :: 0 <= m < |methods| ==> methods[m].eventTypes == others[m].eventTypes
    ensures BatchEvents(methods, events) == BatchEvents(others, events)
  {
    if events != [] {
      RunsLeaveBatchEvents(methods, others, events[..|events| - 1]);
    }
  }

  lemma {:induction false} RunsLeaveObserved(batchMethod: BatchMethod, run: BatchRun, events: seq<PageEvent>)
    ensures ObservedBy(batchMethod, events) == ObservedBy(batchMethod.(run := run), events)
  {
    if events != [] {
      RunsLeaveObserved(batchMethod, run, events[..|events| - 1]);
    }
  }

  lemma {:induction false} RunsLeaveBatches(
    target: ReactorObservationTarget, runs: seq<BatchRun>, partitions: seq<DeliveredPartition>)
    requires |runs| == |target.batchMethods|
    ensures forall m :: 0 <= m < |runs| ==> Batch(WithRuns(target, runs), partitions, m) == Batch(target, partitions, m)
  {
    hide BatchEvents, ObservedBy, SortBySequence, Delivered;
    forall m | 0 <= m < |runs| ensures Batch(WithRuns(target, runs), partitions, m) == Batch(target, partitions, m) {
      RunsLeaveBatchEvents(target.batchMethods, WithRuns(target, runs).batchMethods, Delivered(partitions));
      RunsLeaveObserved(target.batchMethods[m], runs[m],
                        SortBySequence(BatchEvents(target.batchMethods, Delivered(partitions))));
    }
  }

  /** The run in which one batch method reports a whole source and the others report nothing. */
  function OnlyReports(n: nat, m: nat, eventSourceId: string): seq<BatchRun> {
    seq(n, i => if i == m then ReportsSource(eventSourceId) else BatchRun([], Returned))
  }

  lemma {:induction false} SilentRunReportsNothing(batchMethod: BatchMethod, observed: seq<PageEvent>, canDefer: bool)
    requires batchMethod.run == BatchRun([], Returned)
    ensures BatchProblems(batchMethod, observed, canDefer) == []
  {
  }

  /** Nor does the page's own failures, nor the instance that observes it. */
  lemma {:induction false} RunsLeaveTypes(target: ReactorObservationTarget, runs: seq<BatchRun>, onceOnly: OnceOnly)
    requires |runs| == |target.batchMethods|
    ensures forall id :: IsBatchEventType(WithRuns(target, runs).batchMethods, id) <==>
              IsBatchEventType(target.batchMethods, id)
    ensures forall e :: RunsPerEvent(WithRuns(target, runs), onceOnly, e) <==> RunsPerEvent(target, onceOnly, e)
  {
    hide HasHandler;
    var others := WithRuns(target, runs).batchMethods;
    assert forall m :: 0 <= m < |runs| ==> others[m].eventTypes == target.batchMethods[m].eventTypes;
  }

  lemma {:induction false} RunsLeaveConversions(
    target: ReactorObservationTarget, runs: seq<BatchRun>, events: seq<PageEvent>)
    requires |runs| == |target.batchMethods|
    ensures ConversionProblems(WithRuns(target, runs).batchMethods, events)
         == ConversionProblems(target.batchMethods, events)
  {
    hide IsBatchEventType;
    RunsLeaveTypes(target, runs, target.onceOnly);
    if events != [] {
      RunsLeaveConversions(target, runs, events[..|events| - 1]);
    }
  }

  lemma {:induction false} RunsLeavePerEvent(
    target: ReactorObservationTarget, runs: seq<BatchRun>, onceOnly: OnceOnly, partition: string,
    events: seq<AppendedEvent>)
    requires |runs| == |target.batchMethods|
    ensures PerEventProblem(WithRuns(target, runs), onceOnly, partition, events)
         == PerEventProblem(target, onceOnly, partition, events)
  {
    hide RunsPerEvent, ErrorOf;
    RunsLeaveTypes(target, runs, onceOnly);
    if events != [] {
      RunsLeavePerEvent(target, runs, onceOnly, partition, events[..|events| - 1]);
    }
  }

  lemma {:induction false} RunsLeavePerEventProblems(
    target: ReactorObservationTarget, runs: seq<BatchRun>, onceOnly: OnceOnly, partitions: seq<DeliveredPartition>)
    requires |runs| == |target.batchMethods|
    ensures PerEventProblems(WithRuns(target, runs), onceOnly, partitions)
         == PerEventProblems(target, onceOnly, partitions)
  {
    hide PerEventProblem;
    if partitions != [] {
      var last := partitions[|partitions| - 1];
      RunsLeavePerEventProblems(target, runs, onceOnly, partitions[..|partitions| - 1]);
      RunsLeavePerEvent(target, runs, onceOnly, last.partition, last.events);
    }
  }

  lemma {:induction false} RunsLeaveOwnProblems(
    target: ReactorObservationTarget, runs: seq<BatchRun>, partitions: seq<DeliveredPartition>, activation: Activation)
    requires |runs| == |target.batchMethods|
    ensures ObservingInstance(WithRuns(target, runs), partitions, activation)
         == ObservingInstance(target, partitions, activation)
    ensures forall onceOnly :: OwnProblems(WithRuns(target, runs), onceOnly, partitions)
                            == OwnProblems(target, onceOnly, partitions)
  {
    hide IsBatchEventType, HasHandler, ConversionProblems, PerEventProblems, Delivered;
    RunsLeaveTypes(target, runs, target.onceOnly);
    RunsLeaveConversions(target, runs, Delivered(partitions));
    forall onceOnly ensures PerEventProblems(WithRuns(target, runs), onceOnly, partitions)
                         == PerEventProblems(target, onceOnly, partitions) {
      RunsLeavePerEventProblems(target, runs, onceOnly, partitions);
    }
  }

  /** What fails of a page by itself, for the instance that observes it. */
  function PageProblems(target: ReactorObservationTarget, message: EventsToObserve, environment: Environment)
    : seq<PartitionProblem>
  {
    var partitions := PartitionsOf(message);
    OwnProblems(target, ObservingInstance(target, partitions, environment.activation), partitions)
  }

  /** On an undisturbed delivery, problems are the page's own failures or those the batch methods cause. */
  lemma {:induction false} OwnOrReported(
    target: ReactorObservationTarget, message: EventsToObserve, environment: Environment, q: PartitionProblem)
    requires Undisturbed(target, environment) && q in DispatchProblems(target, message, environment)
    ensures || q in PageProblems(target, message, environment)
            || ReportedByBatch(target, PartitionsOf(message), IsPage(message), |target.batchMethods|, q)
  {
    hide ReportedByBatch, ProblemsByBatches, PerEventProblems, ConversionProblems, Delivered, AnyInvocable, IsPage,
      PartitionsOf;
    ProblemsByBatchesMembers(target, PartitionsOf(message), IsPage(message), |target.batchMethods|, q);
  }

  /**
   * When only one batch method reports anything, and that a whole source, one partition of the source is failed, and
   * besides that only what fails by itself.
   */
  lemma {:induction false} OnePartitionFails(
    target: ReactorObservationTarget, message: EventsToObserve, environment: Environment, m: nat, x: PageEvent)
    requires Undisturbed(target, environment)
    requires m < |target.batchMethods| && x in Batch(target, PartitionsOf(message), m)
    requires x.event.eventSourceId in PartitionsBySource(Batch(target, PartitionsOf(message), m))
    ensures var reporting := WithRuns(target, OnlyReports(|target.batchMethods|, m, x.event.eventSourceId));
            && !FinishedInBatch(reporting.batchMethods[m],
               x.event)
            && forall q :: q in DispatchProblems(reporting, message, environment) ==>
                 || q in PageProblems(target, message, environment)
                 || q.partition == PartitionsBySource(Batch(target, PartitionsOf(message), m))[x.event.eventSourceId]
  {
    hide DispatchProblems, Batch, BatchProblems, FinishedInBatch, PartitionsBySource, PartitionsOf, IsPage, Ordered,
      OwnProblems, ObservingInstance;
    var partitions, canDefer := PartitionsOf(message), IsPage(message);
    var runs := OnlyReports(|target.batchMethods|, m, x.event.eventSourceId);
    var reporting, observed := WithRuns(target, runs), Batch(target, partitions, m);
    var failed := PartitionsBySource(observed)[x.event.eventSourceId];
    RunsLeaveBatches(target, runs, partitions);
    RunsLeaveOwnProblems(target, runs, partitions, environment.activation);
    BatchMembers(target, partitions, m, x);
    SourceReportFailsOnePartition(reporting.batchMethods[m], observed, canDefer, x);
    forall q | q in DispatchProblems(reporting, message, environment)
      ensures q in PageProblems(target, message, environment) || q.partition == failed
    {
      OwnOrReported(reporting, message, environment, q);
      if k :| 0 <= k < |runs| && q in BatchProblems(reporting.batchMethods[k], Batch(reporting, partitions, k),
        canDefer)
              && k != m {
        SilentRunReportsNothing(reporting.batchMethods[k], Batch(reporting, partitions, k), canDefer);
      }
    }
  }

  /** On a page whose numbers are not the sentinel, what no problem blocks is acknowledged. */
  lemma {:induction false} UnblockedIsAcknowledged(
    target: ReactorObservationTarget, message: EventsToObserve, environment: Environment, i: nat, e: AppendedEvent)
    requires DeliveredInSequence(PartitionsOf(message)) && Numbered(PartitionsOf(message))
    requires i < |PartitionsOf(message)| && e in PartitionsOf(message)[i].events
    requires !Blocked(PartitionsOf(message)[i].partition, e.sequenceNumber,
             DispatchProblems(target, message, environment))
    ensures Acknowledged(target, message, environment, i, e)
  {
    hide DispatchProblems, PartitionsOf, Blocked, SettlePartition, Delivered;
    var partitions := PartitionsOf(message);
    var events := partitions[i].events;
    var numbers := SequenceNumbersOf(events);
    var j :| 0 <= j < |events| && events[j] == e;
    assert numbers[j] == e.sequenceNumber;
    AcknowledgesExactlyTheUnblocked(partitions[i].partition, numbers, DispatchProblems(target, message, environment),
      e.sequenceNumber);
    forall n | n in numbers ensures n != SEQUENCE_NUMBER_UNAVAILABLE {
      var k :| 0 <= k < |numbers| && numbers[k] == n;
      DeliveredMembers(partitions, PageEvent(partitions[i].partition, events[k]));
    }
  }

  /**
   * When a batch event lies outside the partition the batch has for its source, nothing of the page's own blocks it,
   * and its method reports that source, then only the other partition is failed: the event is acknowledged although its
   * batch method did not finish it.
   */
  lemma {:induction false} SplitSourceIsAcknowledgedUnhandled(
    target: ReactorObservationTarget, message: EventsToObserve, environment: Environment, m: nat, x: PageEvent)
    returns (runs: seq<BatchRun>, i: nat)
    requires DeliveredInSequence(PartitionsOf(message)) && Numbered(PartitionsOf(message))
             && Undisturbed(target, environment)
    requires m < |target.batchMethods| && x in Batch(target, PartitionsOf(message), m)
    requires !InLastPartition(Batch(target, PartitionsOf(message), m), x)
    requires !Blocked(x.partition, x.event.sequenceNumber, PageProblems(target, message, environment))
    ensures |runs| == |target.batchMethods| && i < |PartitionsOf(message)| && x.event in PartitionsOf(message)[i].events
    ensures x.event.eventTypeId in target.batchMethods[m].eventTypes
            && PartitionsOf(message)[i].partition == x.partition
    ensures Acknowledged(WithRuns(target, runs), message, environment, i, x.event)
    ensures InBatch(x.partition, x.event, m) !in DispatchFinished(WithRuns(target, runs), message, environment)
  {
    hide Batch, FinishedInBatch, PartitionsBySource, Numbered, DeliveredInSequence, Delivered, Ordered, Acknowledged,
      PartitionsOf, IsPage, DispatchProblems, ObservedFinished, ObservingInstance, PageProblems;
    var partitions := PartitionsOf(message);
    LastPartitionOf(Batch(target, partitions, m), x);
    runs := OnlyReports(|target.batchMethods|, m, x.event.eventSourceId);
    BatchMembers(target, partitions, m, x);
    DeliveredMembers(partitions, x);
    i :| 0 <= i < |partitions| && partitions[i].partition == x.partition && x.event in partitions[i].events;
    OnePartitionFails(target, message, environment, m, x);
    UnblockedIsAcknowledged(WithRuns(target, runs), message, environment, i, x.event);
    ObservationIsGenuine(WithRuns(target, runs), partitions, environment.activation);
  }

  /** Acknowledgement is sound whatever the batch methods report and however they end. */
  ghost predicate SoundForEveryRun(
    target: ReactorObservationTarget, message: EventsToObserve, environment: Environment)
  {
    forall runs: seq<BatchRun> :: |runs| == |target.batchMethods| ==>
      Sound(WithRuns(target, runs), message, environment)
  }

  lemma {:induction false} RunsLeaveCovered(
    target: ReactorObservationTarget, runs: seq<BatchRun>, message: EventsToObserve, environment: Environment)
    requires |runs| == |target.batchMethods|
    ensures Covered(WithRuns(target, runs), message, environment) <==> Covered(target, message, environment)
  {
    hide Batch, OwnProblems, ObservingInstance, InLastPartition, Blocked, PartitionsOf;
    RunsLeaveBatches(target, runs, PartitionsOf(message));
    RunsLeaveOwnProblems(target, runs, PartitionsOf(message), environment.activation);
  }

  /**
   * Acknowledgement is sound under every run of the batch methods exactly when each event of a batch lies in the
   * partition the batch has for its source or is blocked by the page's own failures.
   */
  lemma {:induction false} SoundExactlyWhenCovered(
    target: ReactorObservationTarget, message: EventsToObserve, environment: Environment)
    requires DeliveredInSequence(PartitionsOf(message)) && Numbered(PartitionsOf(message))
             && Undisturbed(target, environment)
    ensures SoundForEveryRun(target, message, environment) <==> Covered(target, message, environment)
  {
    hide Sound, Batch, DeliveredInSequence, Numbered, Undisturbed, Acknowledged, PartitionsOf, DispatchFinished,
      OwnProblems, ObservingInstance, InLastPartition, Blocked;
    var partitions := PartitionsOf(message);
    if Covered(target, message, environment) {
      forall runs: seq<BatchRun> | |runs| == |target.batchMethods|
        ensures Sound(WithRuns(target, runs), message, environment)
      {
        RunsLeaveCovered(target, runs, message, environment);
        DispatchIsSound(WithRuns(target, runs), message, environment);
      }
    } else {
      var m, x :| 0 <= m < |target.batchMethods| && x in Batch(target, partitions, m)
                  && !InLastPartition(Batch(target, partitions, m), x)
                  && !Blocked(x.partition, x.event.sequenceNumber, PageProblems(target, message, environment));
      var runs, i := SplitSourceIsAcknowledgedUnhandled(target, message, environment, m, x);
      AcknowledgedUnfinishedIsUnsound(WithRuns(target, runs), message, environment, m, i, x.event);
    }
  }

  /**
   * On a page on which nothing fails by itself, that is the case exactly when no batch holds a source for two
   * partitions.
   */
  lemma {:induction false} SoundExactlyWhenTogether(
    target: ReactorObservationTarget, message: EventsToObserve, environment: Environment)
    requires DeliveredInSequence(PartitionsOf(message)) && Numbered(PartitionsOf(message))
             && Undisturbed(target, environment) && Untroubled(PartitionsOf(message))
    ensures SoundForEveryRun(target, message, environment) <==> BatchesTogether(target, PartitionsOf(message))
  {
    hide SoundForEveryRun, DeliveredInSequence, Numbered, Undisturbed, PartitionsOf, ObservingInstance, Batch,
      InLastPartition, OwnProblems;
    var partitions := PartitionsOf(message);
    SoundExactlyWhenCovered(target, message, environment);
    UntroubledHasNoProblems(target, ObservingInstance(target, partitions, environment.activation), partitions);
    forall m | 0 <= m < |target.batchMethods|
      ensures SourcesTogether(Batch(target, partitions, m))
         <==> forall x :: x in Batch(target, partitions, m) ==> InLastPartition(Batch(target, partitions, m), x)
    {
      PartitionsBySourceAgree(Batch(target, partitions, m));
    }
  }

  lemma {:induction false} UntroubledHasNoProblems(
    target: ReactorObservationTarget, onceOnly: OnceOnly, partitions: seq<DeliveredPartition>)
    requires Untroubled(partitions)
    ensures OwnProblems(target, onceOnly, partitions) == []
  {
    hide PerEventProblems, Delivered;
    NoFailureNoProblem(target, onceOnly, partitions);
    var problems := ConversionProblems(target.batchMethods, Delivered(partitions));
    assert problems != [] ==> problems[0] in problems;
    if problems != [] {
      ConversionProblemsMembers(target.batchMethods, Delivered(partitions), problems[0]);
    }
  }

  lemma {:induction false} AcknowledgedUnfinishedIsUnsound(
    target: ReactorObservationTarget, message: EventsToObserve, environment: Environment, m: nat, i: nat,
    e: AppendedEvent)
    requires m < |target.batchMethods| && e.eventTypeId in target.batchMethods[m].eventTypes
    requires i < |PartitionsOf(message)| && e in PartitionsOf(message)[i].events
             && Acknowledged(target, message, environment, i, e)
    requires InBatch(PartitionsOf(message)[i].partition, e, m) !in DispatchFinished(target, message, environment)
    ensures !Sound(target, message, environment)
  {
    hide DispatchFinished, Acknowledged, PartitionsOf, ObservingInstance;
  }
}
