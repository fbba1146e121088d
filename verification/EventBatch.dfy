/**
 * The events a batch method is called with and the partitions it reports. A report is located among the events of the
 * batch; one that names no partition of the batch throws in the source and leaves no outcome.
 */
module EventBatches {
  import opened Wrappers

  /**
   * A delivered event. The two errors are what the environment does with it: reading its content and context, and
   * running its per-event handler with the effects the handler returns.
   */
  datatype AppendedEvent = AppendedEvent(
    sequenceNumber: nat,
    eventTypeId: string,
    eventSourceId: string,
    isReplay: bool,
    conversionError: Option<string>,
    handlingError: Option<string>)

  datatype ReportTarget = ByPartition(eventSourceId: string) | ByEvent(eventSourceId: string, sequenceNumber: nat)

  datatype Report =
    | Fail(target: ReportTarget, error: Option<string>)
    | Defer(target: ReportTarget, retryAfterMilliseconds: real)

  datatype BatchOutcome = BatchOutcome(
    partition: string, at: nat, deferred: bool, error: Option<string>, retryAfterMilliseconds: real)

  /** How a batch method ends. */
  datatype Ending = Returned | ReturnedAValue(error: string) | Threw(error: string)

  /** One call of a batch method: what it reports while running, and how it ends. */
  datatype BatchRun = BatchRun(reports: seq<Report>, ending: Ending)

  function FirstOfSource(events: seq<AppendedEvent>, eventSourceId: string): Option<nat> {
    if events == [] then None
    else if events[0].eventSourceId == eventSourceId then Some(events[0].sequenceNumber)
    else FirstOfSource(events[1..], eventSourceId)
  }

  /** Where a report points: the partition and the first event not handled. */
  function Locate(events: seq<AppendedEvent>, target: ReportTarget): Option<(string, nat)> {
    match FirstOfSource(events, target.eventSourceId)
    case None => None
    case Some(first) =>
      Some((target.eventSourceId, if target.ByPartition? then first else target.sequenceNumber))
  }

  /** `Math.round`. */
  function Round(x: real): int {
    (x + 0.5).Floor
  }

  function NotNegative(n: int): nat {
    if n < 0 then 0 else n
  }

  function OutcomeOf(events: seq<AppendedEvent>, canDefer: bool, report: Report): Option<BatchOutcome> {
    match Locate(events, report.target)
    case None => None
    case Some((partition, at)) =>
      match report
      case Fail(_, error) => Some(BatchOutcome(partition, at, false, error, 0.0))
      case Defer(_, retry) =>
        if canDefer then Some(BatchOutcome(partition, at, true, None, NotNegative(Round(retry)) as real))
        else Some(BatchOutcome(partition, at, false, Some("Deferral is not supported by the kernel for " + partition),
          0.0))
  }

  function OutcomesOf(events: seq<AppendedEvent>, canDefer: bool, reports: seq<Report>): seq<BatchOutcome> {
    if reports == [] then []
    else
      var earlier := OutcomesOf(events, canDefer, reports[..|reports| - 1]);
      match OutcomeOf(events, canDefer, reports[|reports| - 1])
      case None => earlier
      case Some(outcome) => earlier + [outcome]
  }

  /**
   * Where a target points: a partition to its first event in the batch, an event to itself wherever the batch holds its
   * source.
   */
  ghost predicate PointsAt(events: seq<AppendedEvent>, target: ReportTarget, at: nat) {
    match target
    case ByEvent(eventSourceId, sequenceNumber) =>
      at == sequenceNumber && exists e :: e in events && e.eventSourceId == eventSourceId
    case ByPartition(eventSourceId) =>
      exists k :: && 0 <= k < |events| && events[k].eventSourceId == eventSourceId && events[k].sequenceNumber == at
                  && forall j :: 0 <= j < k ==> events[j].eventSourceId != eventSourceId
  }

  /** The whole number of milliseconds nearest to a delay, halves up, and none below zero. */
  ghost predicate IsDelay(retryAfterMilliseconds: real, delay: real) {
    && delay == delay.Floor as real && delay >= 0.0
    && (delay == 0.0 || delay - 0.5 <= retryAfterMilliseconds)
    && retryAfterMilliseconds < delay + 0.5
  }

  lemma {:induction false} RoundsToDelay(retryAfterMilliseconds: real)
    ensures IsDelay(retryAfterMilliseconds, NotNegative(Round(retryAfterMilliseconds)) as real)
  {
  }

  lemma {:induction false} OneDelay(retryAfterMilliseconds: real, delay: real, other: real)
    requires IsDelay(retryAfterMilliseconds, delay) && IsDelay(retryAfterMilliseconds, other)
    ensures delay == other
  {
    WholesApart(delay.Floor, other.Floor);
  }

  lemma {:induction false} WholesApart(n: int, m: int)
    ensures n < m ==> m as real - n as real >= 1.0
    ensures m < n ==> n as real - m as real >= 1.0
  {
    assert n < m ==> (n + 1) as real <= m as real;
    assert m < n ==> (m + 1) as real <= n as real;
  }

  lemma {:induction false} PointsAtOnePlace(events: seq<AppendedEvent>, target: ReportTarget, at: nat, other: nat)
    requires PointsAt(events, target, at) && PointsAt(events, target, other)
    ensures at == other
  {
  }

  /** A report is located exactly when the batch holds its source, and then where its target points. */
  lemma {:induction false} LocateFinds(events: seq<AppendedEvent>, target: ReportTarget)
    ensures Locate(events, target).Some? <==> exists e :: e in events && e.eventSourceId == target.eventSourceId
    ensures Locate(events, target).Some? ==>
              Locate(events, target).value.0 == target.eventSourceId
              && PointsAt(events, target, Locate(events, target).value.1)
  {
    FirstOfSourceIsFirst(events, target.eventSourceId);
  }

  lemma {:induction false} FirstOfSourceIsFirst(events: seq<AppendedEvent>, eventSourceId: string)
    ensures FirstOfSource(events, eventSourceId).Some? <==> exists e :: e in events && e.eventSourceId == eventSourceId
    ensures FirstOfSource(events, eventSourceId).Some? ==>
              PointsAt(events, ByPartition(eventSourceId), FirstOfSource(events, eventSourceId).value)
  {
    if events != [] {
      var rest := events[1..];
      FirstOfSourceIsFirst(rest, eventSourceId);
      assert events == [events[0]] + rest && events[0] in events;
      if events[0].eventSourceId != eventSourceId && FirstOfSource(rest, eventSourceId).Some? {
        var k :| && 0 <= k < |rest| && rest[k].eventSourceId == eventSourceId
                 && rest[k].sequenceNumber == FirstOfSource(rest, eventSourceId).value
                 && forall j :: 0 <= j < k ==> rest[j].eventSourceId != eventSourceId;
        assert events[k + 1] == rest[k];
        forall j | 0 <= j < k + 1 ensures events[j].eventSourceId != eventSourceId {
          assert j > 0 ==> events[j] == rest[j - 1];
        }
      }
    }
  }

  class EventBatch {
    const events: seq<AppendedEvent>
    const canDefer: bool
    var outcomes: seq<BatchOutcome>

    constructor (events: seq<AppendedEvent>, canDefer: bool)
      ensures this.events == events && this.canDefer == canDefer && outcomes == []
    {
      this.events, this.canDefer, this.outcomes := events, canDefer, [];
    }

    method FailPartition(target: ReportTarget, error: Option<string>) returns (located: bool)
      modifies this
      ensures located <==> exists e :: e in events && e.eventSourceId == target.eventSourceId
      ensures located ==>
                exists at :: PointsAt(events, target, at)
                  && outcomes == old(outcomes) + [BatchOutcome(target.eventSourceId, at, false, error, 0.0)]
      ensures located <==> OutcomeOf(events, canDefer, Report.Fail(target, error)).Some?
      ensures outcomes == old(outcomes) + (if located then
              [OutcomeOf(events, canDefer, Report.Fail(target, error)).value] else [])
    {
      LocateFinds(events, target);
      match Locate(events, target)
      case None => located := false;
      case Some((partition, at)) =>
        outcomes := outcomes + [BatchOutcome(partition, at, false, error, 0.0)];
        located := true;
    }

    method DeferPartition(target: ReportTarget, retryAfterMilliseconds: real) returns (located: bool)
      modifies this
      ensures located <==> exists e :: e in events && e.eventSourceId == target.eventSourceId
      ensures located && canDefer ==>
                exists at, delay :: PointsAt(events, target, at) && IsDelay(retryAfterMilliseconds, delay)
                  && outcomes == old(outcomes) + [BatchOutcome(target.eventSourceId, at, true, None, delay)]
      ensures located && !canDefer ==>
                exists at :: PointsAt(events, target, at)
                  && outcomes == old(outcomes)
                     + [BatchOutcome(target.eventSourceId, at, false,
                          Some("Deferral is not supported by the kernel for " + target.eventSourceId), 0.0)]
      ensures located <==> OutcomeOf(events, canDefer, Report.Defer(target, retryAfterMilliseconds)).Some?
      ensures outcomes == old(outcomes) +
                          (if located then [OutcomeOf(events, canDefer,
                            Report.Defer(target, retryAfterMilliseconds)).value] else [])
    {
      LocateFinds(events, target);
      RoundsToDelay(retryAfterMilliseconds);
      match Locate(events, target)
      case None => located := false;
      case Some((partition, at)) =>
        if !canDefer {
          outcomes := outcomes +
            [BatchOutcome(partition, at, false, Some("Deferral is not supported by the kernel for " + partition), 0.0)];
        } else {
          outcomes := outcomes + [BatchOutcome(partition, at, true, None,
            NotNegative(Round(retryAfterMilliseconds)) as real)];
        }
        located := true;
    }

    /** A batch method reporting, one call at a time. */
    method Run(reports: seq<Report>)
      modifies this
      ensures outcomes == old(outcomes) + OutcomesOf(events, canDefer, reports)
    {
      for i := 0 to |reports|
        invariant outcomes == old(outcomes) + OutcomesOf(events, canDefer, reports[..i])
      {
        var located;
        match reports[i] {
          case Fail(target, error) => located := FailPartition(target, error);
          case Defer(target, retry) => located := DeferPartition(target, retry);
        }
        assert reports[..i + 1][..i] == reports[..i];
      }
      assert reports[..|reports|] == reports;
    }
  }

  ghost predicate InSequence(events: seq<AppendedEvent>) {
    forall i, j :: 0 <= i < j < |events| ==> events[i].sequenceNumber <= events[j].sequenceNumber
  }

  lemma {:induction false} FirstOfSourceIsEarliest(events: seq<AppendedEvent>, eventSourceId: string)
    ensures FirstOfSource(events, eventSourceId).None? <==> forall e :: e in events ==> e.eventSourceId != eventSourceId
    ensures InSequence(events) && FirstOfSource(events, eventSourceId).Some? ==>
              forall e :: e in events && e.eventSourceId == eventSourceId
                          ==> FirstOfSource(events, eventSourceId).value <= e.sequenceNumber
  {
    if events != [] {
      FirstOfSourceIsEarliest(events[1..], eventSourceId);
      assert events == [events[0]] + events[1..];
      assert events[0] in events;
    }
  }

  /** The outcomes of a run are exactly those of its located reports. */
  lemma {:induction false} OutcomesAreLocatedReports(
    events: seq<AppendedEvent>, canDefer: bool, reports: seq<Report>, outcome: BatchOutcome)
    ensures outcome in OutcomesOf(events, canDefer, reports) <==>
            exists r :: r in reports && OutcomeOf(events, canDefer, r) == Some(outcome)
  {
    if reports != [] {
      var rest, last := reports[..|reports| - 1], reports[|reports| - 1];
      OutcomesAreLocatedReports(events, canDefer, rest, outcome);
      assert reports == rest + [last];
      assert last in reports;
      forall r | r in reports ensures r in rest || r == last {}
    }
  }

  /**
   * A partition reported as a whole is reported from its first event in the batch, so none of its events counts as
   * handled.
   */
  lemma {:induction false} WholePartitionReportCoversIt(
    events: seq<AppendedEvent>, canDefer: bool, report: Report, e: AppendedEvent)
    requires InSequence(events) && e in events && report.target == ByPartition(e.eventSourceId)
    ensures OutcomeOf(events, canDefer, report).Some?
    ensures OutcomeOf(events, canDefer, report).value.partition == e.eventSourceId
    ensures OutcomeOf(events, canDefer, report).value.at <= e.sequenceNumber
    ensures !canDefer ==> !OutcomeOf(events, canDefer, report).value.deferred
  {
    FirstOfSourceIsEarliest(events, e.eventSourceId);
  }
}
