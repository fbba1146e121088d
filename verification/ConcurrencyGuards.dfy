/**
 * Optimistic concurrency guards: the client plans which guards a batch needs, reads a tail for each, derives a scope,
 * encodes it and appends. The kernel is the assumption at the bottom: an append-only log with a guarded append.
 */
module ConcurrencyGuards {
  import opened Wrappers
  import opened EventRouting

  /** Represents an unset sequence number: no expected revision. */
  const UNSET: nat := 18446744073709551615

  /** Expects no event matching the scope. */
  const BEFORE_FIRST: nat := 18446744073709551613

  datatype ConcurrencyScope = ConcurrencyScope(
    sequenceNumber: nat, eventSourceId: bool,
    eventSourceType: Option<string>, eventStreamType: Option<string>, eventStreamId: Option<string>,
    eventTypes: set<string>)

  /** A scope as the wire carries it; an empty text does not narrow. */
  datatype WireScope = WireScope(
    sequenceNumber: nat, expectsNoMatchingEvent: bool, eventSourceId: bool,
    eventSourceType: string, eventStreamType: string, eventStreamId: string, eventTypes: set<string>)

  datatype RequiredGuard = RequiredGuard(routing: ResolvedEventRouting, streamId: Option<string>)

  /**
   * The values of the dimensions a routing selects; the source compares their JSON text, which is one-to-one with them.
   */
  datatype GuardPredicate = GuardPredicate(
    eventSourceId: Option<string>, sourceType: Option<string>, streamType: Option<string>, streamId: Option<string>)

  function When(condition: bool, value: Option<string>): Option<string> {
    if condition then value else None
  }

  function GuardPredicateOf(routing: ResolvedEventRouting, eventSourceId: string, streamId: Option<string>)
    : Option<GuardPredicate>
  {
    var dimensions := routing.Dimensions();
    if dimensions == {} then None
    else Some(GuardPredicate(
                When(EventSourceId in dimensions, Some(eventSourceId)),
                When(EventSourceType in dimensions, Some(routing.SourceType())),
                When(EventStreamType in dimensions, routing.StreamType()),
                When(EventStreamId in dimensions, streamId)))
  }

  /** Reads the tail of what the given dimensions select. */
  type TailReader = (Option<string>, Option<string>, Option<string>, Option<string>) -> nat

  function DeriveConcurrencyScope(
    routing: ResolvedEventRouting, eventSourceId: string, streamId: Option<string>, readTail: TailReader)
    : Option<ConcurrencyScope>
  {
    var dimensions := routing.Dimensions();
    if dimensions == {} then None
    else
      var source := When(EventSourceId in dimensions, Some(eventSourceId));
      var sourceType := When(EventSourceType in dimensions, Some(routing.SourceType()));
      var streamType := When(EventStreamType in dimensions, routing.StreamType());
      var stream := When(EventStreamId in dimensions, streamId);
      var tail := readTail(source, sourceType, streamType, stream);
      Some(ConcurrencyScope(if tail == UNSET then BEFORE_FIRST else tail, source.Some?, sourceType, streamType, stream,
        {}))
  }

  /** Whether a route guards a dimension: its stream decides when it declares any, and its source otherwise. */
  ghost predicate GuardsDimension(routing: ResolvedEventRouting, dimension: Dimension) {
    if routing.stream.Some? && exists d :: d in routing.stream.value.concurrency
    then dimension in routing.stream.value.concurrency
    else dimension in routing.definition.concurrency
  }

  /**
   * A route derives a scope exactly when its stream or its source declares a dimension. The scope narrows by exactly
   * the dimensions guarded, to the event's own values, and expects the tail read under the same values, or no event at
   * all when that tail is unset.
   */
  lemma {:induction false} DerivedScopeNarrowsAsDeclared(
    routing: ResolvedEventRouting, eventSourceId: string, streamId: Option<string>, readTail: TailReader)
    ensures var scope := DeriveConcurrencyScope(routing, eventSourceId, streamId, readTail);
            && (scope.None? <==> forall d :: !GuardsDimension(routing, d))
            && (scope.Some? ==>
                  && (scope.value.eventSourceId <==> GuardsDimension(routing, EventSourceId))
                  && scope.value.eventSourceType
                     == (if GuardsDimension(routing, EventSourceType) then Some(routing.definition.name) else None)
                  && scope.value.eventStreamType
                     == (if GuardsDimension(routing, EventStreamType) && routing.stream.Some?
                         then Some(routing.stream.value.name) else None)
                  && scope.value.eventStreamId == (if GuardsDimension(routing, EventStreamId) then streamId else None)
                  && scope.value.eventTypes == {}
                  && var tail := readTail(if GuardsDimension(routing, EventSourceId) then Some(eventSourceId) else None,
                       scope.value.eventSourceType, scope.value.eventStreamType, scope.value.eventStreamId);
                     scope.value.sequenceNumber
                     == if tail == 18446744073709551615 then 18446744073709551613 else tail)
  {
    var dimensions := routing.Dimensions();
    assert forall d :: d in dimensions <==> GuardsDimension(routing, d);
  }

  /** The predicate a guard is compared by tells the same dimensions apart. */
  lemma {:induction false} PredicateNamesWhatIsGuarded(
    routing: ResolvedEventRouting, eventSourceId: string, streamId: Option<string>)
    ensures var guarded := GuardPredicateOf(routing, eventSourceId, streamId);
            && (guarded.None? <==> forall d :: !GuardsDimension(routing, d))
            && (guarded.Some? ==> guarded.value == GuardPredicate(
                  if GuardsDimension(routing, EventSourceId) then Some(eventSourceId) else None,
                  if GuardsDimension(routing, EventSourceType) then Some(routing.definition.name) else None,
                  if GuardsDimension(routing, EventStreamType) && routing.stream.Some?
                  then Some(routing.stream.value.name) else None,
                  if GuardsDimension(routing, EventStreamId) then streamId else None))
  {
    var dimensions := routing.Dimensions();
    assert forall d :: d in dimensions <==> GuardsDimension(routing, d);
  }

  function ToContractConcurrencyScope(scope: Option<ConcurrencyScope>): WireScope {
    match scope
    case None => WireScope(UNSET, false, false, "", "", "", {})
    case Some(s) =>
      WireScope(if s.sequenceNumber == BEFORE_FIRST then UNSET else s.sequenceNumber, s.sequenceNumber == BEFORE_FIRST,
                s.eventSourceId, s.eventSourceType.GetOr(""), s.eventStreamType.GetOr(""), s.eventStreamId.GetOr(""),
                  s.eventTypes)
  }

  // ----- planning the guards of a batch -----

  /** What an event asks for: a guard for its id, with the predicate the guard evaluates. */
  datatype Request = Request(eventSourceId: string, guard: RequiredGuard, guardPredicate: GuardPredicate)

  function StreamIdOf(event: EventForEventSourceId, sharedStreamId: Option<string>): Option<string> {
    event.eventStreamId.OrElse(sharedStreamId)
  }

  /** An event asks for a guard when it is routed, its id has no explicit scope and its routing declares dimensions. */
  function RequestOf(
    routing: Option<ResolvedEventRouting>, event: EventForEventSourceId, sharedStreamId: Option<string>,
    explicitIds: set<string>)
    : Option<Request>
  {
    if routing.None? || event.eventSourceId in explicitIds then None
    else
      var streamId := StreamIdOf(event, sharedStreamId);
      match GuardPredicateOf(routing.value, event.eventSourceId, streamId)
      case None => None
      case Some(guardPredicate) =>
        Some(Request(event.eventSourceId, RequiredGuard(routing.value, streamId), guardPredicate))
  }

  function RequestsOf(
    routings: seq<Option<ResolvedEventRouting>>, events: seq<EventForEventSourceId>, sharedStreamId: Option<string>,
    explicitIds: set<string>): seq<Option<Request>>
    requires |routings| == |events|
  {
    seq(|events|, i requires 0 <= i < |events| => RequestOf(routings[i], events[i], sharedStreamId, explicitIds))
  }

  /** All requests for an id share one predicate. */
  ghost predicate Plannable(requests: seq<Option<Request>>) {
    forall i, j :: && 0 <= i < |requests| && 0 <= j < |requests| && requests[i].Some? && requests[j].Some?
                   && requests[i].value.eventSourceId == requests[j].value.eventSourceId
                   ==> requests[i].value.guardPredicate == requests[j].value.guardPredicate
  }

  /** The first request for an id. */
  function FirstRequest(requests: seq<Option<Request>>, id: string): Option<Request> {
    if requests == [] then None
    else
      var earlier := FirstRequest(requests[..|requests| - 1], id);
      var last := requests[|requests| - 1];
      if earlier.None? && last.Some? && last.value.eventSourceId == id then last else earlier
  }

  /** A guard for exactly the ids some event asks one for, taken from the first such event. */
  ghost predicate IsPlan(requests: seq<Option<Request>>, guards: map<string, RequiredGuard>) {
    && (forall id :: id in guards <==> FirstRequest(requests, id).Some?)
    && (forall id :: id in guards ==> guards[id] == FirstRequest(requests, id).value.guard)
  }

  lemma {:induction false} FirstRequestIsFirst(requests: seq<Option<Request>>, id: string)
    ensures FirstRequest(requests, id).None? <==>
            forall i :: 0 <= i < |requests| && requests[i].Some? ==> requests[i].value.eventSourceId != id
    ensures FirstRequest(requests, id).Some? ==>
              exists i :: && 0 <= i < |requests| && requests[i] == FirstRequest(requests, id)
                          && requests[i].value.eventSourceId == id
                          && forall j :: 0 <= j < i && requests[j].Some? ==> requests[j].value.eventSourceId != id
  {
    if requests != [] {
      var n := |requests| - 1;
      var rest := requests[..n];
      FirstRequestIsFirst(rest, id);
      if FirstRequest(rest, id).Some? {
        var i :| && 0 <= i < n && rest[i] == FirstRequest(rest, id) && rest[i].value.eventSourceId == id
                 && forall j :: 0 <= j < i && rest[j].Some? ==> rest[j].value.eventSourceId != id;
        assert requests[i] == rest[i];
        forall j | 0 <= j < i && requests[j].Some? ensures requests[j].value.eventSourceId != id {
          assert rest[j] == requests[j];
        }
      } else {
        forall j | 0 <= j < n && requests[j].Some? ensures requests[j].value.eventSourceId != id {
          assert rest[j] == requests[j];
        }
        if requests[n].Some? && requests[n].value.eventSourceId == id {
          assert requests[n] == FirstRequest(requests, id);
        }
      }
    }
  }

  /** Plans the single guard every id needs, or names an id that needs differing ones. */
  method PlanDerivedGuards(
    routings: seq<Option<ResolvedEventRouting>>, events: seq<EventForEventSourceId>, sharedStreamId: Option<string>,
    explicitIds: set<string>)
    returns (r: Result<map<string, RequiredGuard>, string>)
    requires |routings| == |events|
    ensures r.Ok? <==> Plannable(RequestsOf(routings, events, sharedStreamId, explicitIds))
    ensures r.Ok? ==> IsPlan(RequestsOf(routings, events, sharedStreamId, explicitIds), r.value)
    ensures r.Err? ==> var requests := RequestsOf(routings, events, sharedStreamId, explicitIds);
                       exists i, j :: && 0 <= i < j < |requests| && requests[i].Some? && requests[j].Some?
                                      && requests[i].value.eventSourceId == requests[j].value.eventSourceId == r.error
                                      && requests[i].value.guardPredicate != requests[j].value.guardPredicate
  {
    hide GuardPredicateOf, StreamIdOf;
    ghost var requests := RequestsOf(routings, events, sharedStreamId, explicitIds);
    var guards: map<string, RequiredGuard> := map[];
    var predicates: map<string, GuardPredicate> := map[];
    for n := 0 to |events|
      invariant guards.Keys == predicates.Keys
      invariant IsPlan(requests[..n], guards)
      invariant forall i :: 0 <= i < n && requests[i].Some? ==>
                              && requests[i].value.eventSourceId in predicates
                              && requests[i].value.guardPredicate == predicates[requests[i].value.eventSourceId]
    {
      assert requests[..n + 1][..n] == requests[..n];
      var id := events[n].eventSourceId;
      if routings[n].None? || id in explicitIds {
        continue;
      }
      var streamId := StreamIdOf(events[n], sharedStreamId);
      var guardPredicate := GuardPredicateOf(routings[n].value, id, streamId);
      if guardPredicate.None? {
        continue;
      }
      if id !in guards {
        guards := guards[id := RequiredGuard(routings[n].value, streamId)];
        predicates := predicates[id := guardPredicate.value];
        FirstRequestIsFirst(requests[..n], id);
      } else if predicates[id] != guardPredicate.value {
        FirstRequestIsFirst(requests[..n], id);
        ghost var i :| 0 <= i < n && requests[..n][i].Some? && requests[..n][i].value.eventSourceId == id;
        assert requests[i].value.guardPredicate != requests[n].value.guardPredicate;
        return Err(id);
      }
    }
    assert requests[..|events|] == requests;
    return Ok(guards);
  }

  /** Two guards of an id derive the same scope under a tail reader exactly when their predicates are the same. */
  lemma {:induction false} SameScopeExactlyForSamePredicate(
    first: RequiredGuard, second: RequiredGuard, eventSourceId: string, readTail: TailReader)
    requires first.routing.Dimensions() != {} && second.routing.Dimensions() != {}
    ensures DeriveConcurrencyScope(first.routing, eventSourceId, first.streamId, readTail)
            == DeriveConcurrencyScope(second.routing, eventSourceId, second.streamId, readTail)
            <==> GuardPredicateOf(first.routing, eventSourceId, first.streamId)
                 == GuardPredicateOf(second.routing, eventSourceId, second.streamId)
  {
  }

  /**
   * In a planned batch every event that asks for a guard would derive the scope its id got, whatever the tail reader
   * answers.
   */
  lemma {:induction false} PlannedGuardSpeaksForEveryEvent(
    requests: seq<Option<Request>>, guards: map<string, RequiredGuard>, i: nat, readTail: TailReader)
    requires Plannable(requests) && IsPlan(requests, guards)
    requires i < |requests| && requests[i].Some?
    requires forall k :: 0 <= k < |requests| && requests[k].Some? ==> Proper(requests[k].value)
    ensures var r := requests[i].value;
            && r.eventSourceId in guards
            && DeriveConcurrencyScope(guards[r.eventSourceId].routing, r.eventSourceId,
               guards[r.eventSourceId].streamId, readTail).Some?
            && DeriveConcurrencyScope(guards[r.eventSourceId].routing, r.eventSourceId,
               guards[r.eventSourceId].streamId, readTail)
               == DeriveConcurrencyScope(r.guard.routing, r.eventSourceId, r.guard.streamId, readTail)
  {
    var id := requests[i].value.eventSourceId;
    FirstRequestIsFirst(requests, id);
    var first := FirstRequest(requests, id).value;
    SameScopeExactlyForSamePredicate(first.guard, requests[i].value.guard, id, readTail);
  }

  /** A request carries its own guard's predicate. */
  ghost predicate Proper(request: Request) {
    GuardPredicateOf(request.guard.routing, request.eventSourceId, request.guard.streamId)
      == Some(request.guardPredicate)
  }

  lemma {:induction false} RequestsAreProper(
    routings: seq<Option<ResolvedEventRouting>>, events: seq<EventForEventSourceId>, sharedStreamId: Option<string>,
    explicitIds: set<string>, i: nat)
    requires |routings| == |events| && i < |events|
             && RequestsOf(routings, events, sharedStreamId, explicitIds)[i].Some?
    ensures var request := RequestsOf(routings, events, sharedStreamId, explicitIds)[i].value;
            && Proper(request) && request.eventSourceId == events[i].eventSourceId
               && request.eventSourceId !in explicitIds
            && routings[i] == Some(request.guard.routing)
  {
  }

  /**
   * An event that asks for no guard, put anywhere into a batch, changes neither whether it can be planned nor its
   * guards.
   */
  lemma {:induction false} UnguardedEventSuppressesNothing(
    before: seq<Option<Request>>, after: seq<Option<Request>>, guards: map<string, RequiredGuard>)
    ensures IsPlan(before + [None] + after, guards) <==> IsPlan(before + after, guards)
    ensures Plannable(before + [None] + after) <==> Plannable(before + after)
  {
    var with, without := before + [None] + after, before + after;
    forall id ensures FirstRequest(with, id) == FirstRequest(without, id) {
      NoneIsSkipped(before, after, id);
    }
    if Plannable(with) {
      forall i, j | && 0 <= i < |without| && 0 <= j < |without| && without[i].Some? && without[j].Some?
                    && without[i].value.eventSourceId == without[j].value.eventSourceId
        ensures without[i].value.guardPredicate == without[j].value.guardPredicate
      {
        var k := if i < |before| then i else i + 1;
        var l := if j < |before| then j else j + 1;
        assert with[k] == without[i] && with[l] == without[j];
      }
    }
    if Plannable(without) {
      forall i, j | && 0 <= i < |with| && 0 <= j < |with| && with[i].Some? && with[j].Some?
                    && with[i].value.eventSourceId == with[j].value.eventSourceId
        ensures with[i].value.guardPredicate == with[j].value.guardPredicate
      {
        var k := if i < |before| then i else i - 1;
        var l := if j < |before| then j else j - 1;
        assert without[k] == with[i] && without[l] == with[j];
      }
    }
  }

  lemma {:induction false} NoneIsSkipped(before: seq<Option<Request>>, after: seq<Option<Request>>, id: string)
    ensures FirstRequest(before + [None] + after, id) == FirstRequest(before + after, id)
  {
    if after == [] {
      assert before + [None] + after == before + [None] && before + after == before;
      assert (before + [None])[..|before|] == before;
    } else {
      var rest := after[..|after| - 1];
      NoneIsSkipped(before, rest, id);
      assert (before + [None] + after)[..|before| + |after|] == before + [None] + rest;
      assert (before + after)[..|before| + |after| - 1] == before + rest;
    }
  }
}
