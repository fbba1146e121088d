/**
 * How a delivered page of partitions is settled: from the problems the methods of an observer reported to the
 * sequence number each partition is acknowledged through.
 */
module PartitionSettlement {
  import opened Wrappers

  datatype ObservationState = Success | Failed | Deferred

  datatype PartitionProblem = PartitionProblem(
    partition: string,
    at: nat,
    state: ObservationState,
    exceptionMessages: seq<string>,
    retryAfterMilliseconds: real)

  datatype PartitionOutcome = PartitionOutcome(
    partition: string,
    state: ObservationState,
    lastSuccessfulObservation: nat,
    exceptionMessages: seq<string>,
    retryAfterMilliseconds: real)

  /** Reported when no event of a partition was observed successfully. */
  const SEQUENCE_NUMBER_UNAVAILABLE: nat := 4294967295

  function FailedAt(partition: string, at: nat, error: string): PartitionProblem {
    PartitionProblem(partition, at, Failed, [error], 0.0)
  }

  /** The first of the earliest problems of a partition. */
  function Earliest(partition: string, problems: seq<PartitionProblem>): Option<PartitionProblem> {
    if problems == [] then None
    else
      var first := Earliest(partition, problems[..|problems| - 1]);
      var problem := problems[|problems| - 1];
      if problem.partition == partition && (first.None? || problem.at < first.value.at) then Some(problem) else first
  }

  /** The last element below a bound, when there is one. */
  function LastBelow(sequenceNumbers: seq<nat>, bound: nat): Option<nat> {
    if sequenceNumbers == [] then None
    else if sequenceNumbers[|sequenceNumbers| - 1] < bound then Some(sequenceNumbers[|sequenceNumbers| - 1])
    else LastBelow(sequenceNumbers[..|sequenceNumbers| - 1], bound)
  }

  function SettlePartition(partition: string, sequenceNumbers: seq<nat>, problems: seq<PartitionProblem>)
    : PartitionOutcome
  {
    match Earliest(partition, problems)
    case None =>
      PartitionOutcome(partition, Success,
                       if sequenceNumbers == [] then SEQUENCE_NUMBER_UNAVAILABLE
                         else sequenceNumbers[|sequenceNumbers| - 1],
                       [], 0.0)
    case Some(problem) =>
      PartitionOutcome(partition, problem.state,
                       LastBelow(sequenceNumbers, problem.at).GetOr(SEQUENCE_NUMBER_UNAVAILABLE),
                       problem.exceptionMessages, problem.retryAfterMilliseconds)
  }

  /** What the kernel takes an outcome to acknowledge: everything through a number, or nothing. */
  function AcknowledgedThrough(outcome: PartitionOutcome): Option<nat> {
    if outcome.lastSuccessfulObservation == SEQUENCE_NUMBER_UNAVAILABLE then None
    else Some(outcome.lastSuccessfulObservation)
  }

  ghost predicate Ascending(sequenceNumbers: seq<nat>) {
    forall i, j :: 0 <= i < j < |sequenceNumbers| ==> sequenceNumbers[i] <= sequenceNumbers[j]
  }

  /** A problem of the partition that is not after the sequence number. */
  ghost predicate Blocked(partition: string, sequenceNumber: nat, problems: seq<PartitionProblem>) {
    exists q :: q in problems && q.partition == partition && q.at <= sequenceNumber
  }

  /** The problem at a place is the partition's earliest, and among equally early ones it was reported first. */
  ghost predicate IsFirstOfTheEarliest(partition: string, problems: seq<PartitionProblem>, k: nat) {
    && k < |problems| && problems[k].partition == partition
    && (forall j :: 0 <= j < k && problems[j].partition == partition ==> problems[k].at < problems[j].at)
    && (forall j :: k <= j < |problems| && problems[j].partition == partition ==> problems[k].at <= problems[j].at)
  }

  lemma {:induction false} EarliestIsMinimal(partition: string, problems: seq<PartitionProblem>)
    ensures Earliest(partition, problems).None? <==> forall q :: q in problems ==> q.partition != partition
    ensures Earliest(partition, problems).Some? ==>
              var first := Earliest(partition, problems).value;
              && first in problems && first.partition == partition
              && (forall q :: q in problems && q.partition == partition ==> first.at <= q.at)
              && exists k: nat :: IsFirstOfTheEarliest(partition, problems, k) && first == problems[k]
  {
    if problems != [] {
      var rest, last := problems[..|problems| - 1], problems[|problems| - 1];
      EarliestIsMinimal(partition, rest);
      assert problems == rest + [last];
      if k: nat :| IsFirstOfTheEarliest(partition, rest, k) && Earliest(partition, rest) == Some(rest[k]) {
        assert (last.partition == partition && last.at < rest[k].at) || IsFirstOfTheEarliest(partition, problems, k);
      }
      if Earliest(partition, problems) == Some(last) && Earliest(partition, rest) != Some(last) {
        assert IsFirstOfTheEarliest(partition, problems, |rest|);
      }
    }
  }

  lemma {:induction false} LastBelowIsGreatest(sequenceNumbers: seq<nat>, bound: nat)
    requires Ascending(sequenceNumbers)
    ensures LastBelow(sequenceNumbers, bound).None? <==> forall n :: n in sequenceNumbers ==> bound <= n
    ensures LastBelow(sequenceNumbers, bound).Some? ==>
              var last := LastBelow(sequenceNumbers, bound).value;
              && last in sequenceNumbers && last < bound
              && forall n :: n in sequenceNumbers && n < bound ==> n <= last
  {
    if sequenceNumbers != [] {
      var rest := sequenceNumbers[..|sequenceNumbers| - 1];
      LastBelowIsGreatest(rest, bound);
      var last := sequenceNumbers[|sequenceNumbers| - 1];
      assert last in sequenceNumbers;
      forall n | n in sequenceNumbers ensures n in rest || n == last {
        assert sequenceNumbers == rest + [last];
      }
      forall n | n in rest ensures n in sequenceNumbers {}
    }
  }

  /** A partition without problems succeeded through its last number. */
  lemma {:induction false} SettlesAsSuccess(
    partition: string, sequenceNumbers: seq<nat>, problems: seq<PartitionProblem>)
    requires forall q :: q in problems ==> q.partition != partition
    ensures SettlePartition(partition, sequenceNumbers, problems)
         == PartitionOutcome(partition, Success, if sequenceNumbers == [] then 4294967295
              else sequenceNumbers[|sequenceNumbers| - 1], [], 0.0)
  {
    EarliestIsMinimal(partition, problems);
  }

  /** A partition with problems ends as the first of its earliest ones says, after the last number before it. */
  lemma {:induction false} SettlesAsTheEarliest(
    partition: string, sequenceNumbers: seq<nat>, problems: seq<PartitionProblem>, k: nat)
    requires Ascending(sequenceNumbers) && IsFirstOfTheEarliest(partition, problems, k)
    ensures var outcome := SettlePartition(partition, sequenceNumbers, problems);
            && outcome.partition == partition && outcome.state == problems[k].state
            && outcome.exceptionMessages == problems[k].exceptionMessages
            && outcome.retryAfterMilliseconds == problems[k].retryAfterMilliseconds
            && var n := outcome.lastSuccessfulObservation;
               if exists m :: m in sequenceNumbers && m < problems[k].at then
                 n in sequenceNumbers && n < problems[k].at
                 && forall m :: m in sequenceNumbers && m < problems[k].at ==> m <= n
               else n == 4294967295
  {
    hide LastBelow;
    EarliestIsMinimal(partition, problems);
    LastBelowIsGreatest(sequenceNumbers, problems[k].at);
    var j: nat :| IsFirstOfTheEarliest(partition, problems, j) && Earliest(partition, problems) == Some(problems[j]);
    assert j == k;
  }

  /**
   * A settled partition acknowledges exactly the events no problem blocks, up to one collision: when the last of them
   * is numbered like the sentinel, the report reads as acknowledging nothing.
   */
  lemma {:induction false} AcknowledgesExactlyTheUnblocked(
    partition: string, sequenceNumbers: seq<nat>, problems: seq<PartitionProblem>, n: nat)
    requires Ascending(sequenceNumbers) && n in sequenceNumbers
    ensures var through := AcknowledgedThrough(SettlePartition(partition, sequenceNumbers, problems));
            && (through.Some? ==> (n <= through.value <==> !Blocked(partition, n, problems)))
            && (through.None? ==>
                  || Blocked(partition, n, problems)
                  || SettlePartition(partition, sequenceNumbers, problems).lastSuccessfulObservation in sequenceNumbers)
  {
    EarliestIsMinimal(partition, problems);
    match Earliest(partition, problems)
    case None =>
      var last := |sequenceNumbers| - 1;
      assert sequenceNumbers[last] in sequenceNumbers;
    case Some(first) =>
      LastBelowIsGreatest(sequenceNumbers, first.at);
      assert n < first.at <==> !Blocked(partition, n, problems);
  }

  /**
   * The report of a partition reads as "nothing observed" exactly when every event is blocked or the collision occurs.
   */
  lemma {:induction false} ReadsAsNothingObserved(
    partition: string, sequenceNumbers: seq<nat>, problems: seq<PartitionProblem>)
    requires Ascending(sequenceNumbers)
    ensures AcknowledgedThrough(SettlePartition(partition, sequenceNumbers, problems)).None? <==>
            || (forall n :: n in sequenceNumbers ==> Blocked(partition, n, problems))
            || (exists n :: n in sequenceNumbers && !Blocked(partition, n, problems) && n == SEQUENCE_NUMBER_UNAVAILABLE
                            && forall m :: m in sequenceNumbers && !Blocked(partition, m, problems) ==> m <= n)
  {
    var outcome := SettlePartition(partition, sequenceNumbers, problems);
    EarliestIsMinimal(partition, problems);
    match Earliest(partition, problems)
    case None =>
      if sequenceNumbers != [] {
        var last := sequenceNumbers[|sequenceNumbers| - 1];
        assert last in sequenceNumbers && !Blocked(partition, last, problems);
        assert forall m :: m in sequenceNumbers ==> m <= last;
      }
    case Some(first) =>
      LastBelowIsGreatest(sequenceNumbers, first.at);
      forall n | n in sequenceNumbers ensures n < first.at <==> !Blocked(partition, n, problems) {}
      if last: nat :| LastBelow(sequenceNumbers, first.at) == Some(last) {
        assert last in sequenceNumbers && !Blocked(partition, last, problems);
      }
  }
}
