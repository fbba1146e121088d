/**
 * Guarded appends against the kernel: what a batch puts on the wire, and the protocol of many clients interleaving tail
 * reads and appends over one log.
 */
module GuardedAppends {
  import opened Wrappers
  import opened EventRouting
  import opened ConcurrencyGuards

  /** The options of a batch append. */
  datatype AppendOptions = AppendOptions(
    routing: SharedRouting, concurrencyScope: Option<ConcurrencyScope>,
    concurrencyScopes: map<string, ConcurrencyScope>)

  datatype WireEvent = WireEvent(
    eventSourceId: string, eventTypeId: string, eventSource: Option<string>,
    eventSourceType: Option<string>, eventStreamType: Option<string>, eventStreamId: Option<string>)

  datatype AppendError =
    | RoutingFailed(error: RoutingError)
    | DifferingGuards(eventSourceId: string)
    | ScopesWithoutEvents

  datatype BatchRequest = BatchRequest(events: seq<WireEvent>, scopes: map<string, WireScope>)

  /** The wire event before definition routing: per-event values win over the shared ones. */
  function PreparedEvent(event: EventForEventSourceId, shared: SharedRouting): WireEvent {
    WireEvent(event.eventSourceId, event.eventTypeId, None,
              event.eventSourceType.OrElse(shared.sourceType), event.eventStreamType.OrElse(shared.streamType),
                StreamIdOf(event, shared.streamId))
  }

  function RoutedEvent(wire: WireEvent, routing: Option<ResolvedEventRouting>): WireEvent {
    match routing
    case None => wire
    case Some(r) =>
      wire.(eventSourceType := Some(r.SourceType()), eventStreamType := r.StreamType().OrElse(wire.eventStreamType),
                          eventSource := Some(r.SourceType()))
  }

  /** The wire fields of a single append. */
  function AppendRouteFields(
    eventSourceId: string, eventTypeId: string, routing: Option<ResolvedEventRouting>, shared: SharedRouting): WireEvent
  {
    WireEvent(eventSourceId, eventTypeId, if routing.Some? then Some(routing.value.SourceType()) else None,
              if routing.Some? then Some(routing.value.SourceType()) else shared.sourceType,
              if routing.Some? then routing.value.StreamType().OrElse(shared.streamType) else shared.streamType,
              shared.streamId)
  }

  ghost predicate AllResolve(sources: Option<EventSources>, events: seq<EventForEventSourceId>, shared: SharedRouting) {
    forall i :: 0 <= i < |events| ==> ResolveBatchRouting(sources, events[i], shared).Ok?
  }

  function RoutingsOf(sources: Option<EventSources>, events: seq<EventForEventSourceId>, shared: SharedRouting)
    : seq<Option<ResolvedEventRouting>>
    requires AllResolve(sources, events, shared)
  {
    seq(|events|, i requires 0 <= i < |events| => ResolveBatchRouting(sources, events[i], shared).value)
  }

  /** The ids with an explicit scope: a label of their own, or an event and a shared scope. */
  function ExplicitScope(events: seq<EventForEventSourceId>, options: AppendOptions, id: string)
    : Option<ConcurrencyScope>
  {
    if id in options.concurrencyScopes then Some(options.concurrencyScopes[id])
    else if exists e :: e in events && e.eventSourceId == id then options.concurrencyScope
    else None
  }

  /** An id's explicit scope is its label's, and otherwise the shared one when the batch has an event of the id. */
  lemma {:induction false} ScopeByLabel(events: seq<EventForEventSourceId>, options: AppendOptions, id: string, i: nat)
    ensures id in options.concurrencyScopes ==>
              ExplicitScope(events, options, id) == Some(options.concurrencyScopes[id])
    ensures id !in options.concurrencyScopes && i < |events| && events[i].eventSourceId == id ==>
              ExplicitScope(events, options, id) == options.concurrencyScope
    ensures id !in options.concurrencyScopes
            && (forall j :: 0 <= j < |events| ==> events[j].eventSourceId != id) ==>
              ExplicitScope(events, options, id) == None
  {
    assert i < |events| ==> events[i] in events;
  }

  function SourceIds(events: seq<EventForEventSourceId>): set<string> {
    set e | e in events :: e.eventSourceId
  }

  function ExplicitIds(events: seq<EventForEventSourceId>, options: AppendOptions): set<string> {
    set id | id in options.concurrencyScopes.Keys + SourceIds(events) && ExplicitScope(events, options, id).Some?
  }

  /** Labels every event source id of a batch with its scope, if any. */
  method PrepareScopes(events: seq<EventForEventSourceId>, options: AppendOptions)
    returns (scopes: map<string, Option<ConcurrencyScope>>)
    ensures scopes.Keys == options.concurrencyScopes.Keys + SourceIds(events)
    ensures forall id :: id in scopes ==> scopes[id] == ExplicitScope(events, options, id)
  {
    scopes := map id | id in options.concurrencyScopes :: Some(options.concurrencyScopes[id]);
    for i := 0 to |events|
      invariant scopes.Keys == options.concurrencyScopes.Keys + SourceIds(events[..i])
      invariant forall id :: id in options.concurrencyScopes ==> scopes[id] == Some(options.concurrencyScopes[id])
      invariant forall id :: id in scopes && id !in options.concurrencyScopes ==> scopes[id] == options.concurrencyScope
    {
      var id := events[i].eventSourceId;
      assert events[..i + 1] == events[..i] + [events[i]];
      if id !in scopes {
        scopes := scopes[id := options.concurrencyScope];
      }
    }
    assert events[..|events|] == events;
  }

  /** Resolves the routing of every event, or reports the first one that does not resolve. */
  method ResolveRoutings(sources: Option<EventSources>, events: seq<EventForEventSourceId>, shared: SharedRouting)
    returns (r: Result<seq<Option<ResolvedEventRouting>>, RoutingError>)
    ensures r.Ok? <==> AllResolve(sources, events, shared)
    ensures r.Ok? ==> r.value == RoutingsOf(sources, events, shared)
    ensures r.Err? ==> exists i :: 0 <= i < |events| && ResolveBatchRouting(sources, events[i], shared) == Err(r.error)
                                   && AllResolve(sources, events[..i], shared)
  {
    var routings := [];
    for i := 0 to |events|
      invariant |routings| == i && AllResolve(sources, events[..i], shared)
      invariant forall j :: 0 <= j < i ==> ResolveBatchRouting(sources, events[j], shared) == Ok(routings[j])
    {
      match ResolveBatchRouting(sources, events[i], shared) {
        case Err(error) => return Err(error);
        case Ok(routing) => routings := routings + [routing];
      }
    }
    return Ok(routings);
  }

  /** What each guarded id's derived scope is when its tail is read with the reader of that moment. */
  function DerivedScope(guards: map<string, RequiredGuard>, readers: string -> TailReader, id: string)
    : Option<ConcurrencyScope>
    requires id in guards
  {
    DeriveConcurrencyScope(guards[id].routing, id, guards[id].streamId, readers(id))
  }

  /** Puts the definition routing on the prepared wire events, one by one. */
  method ApplyBatchRouting(prepared: seq<WireEvent>, routings: seq<Option<ResolvedEventRouting>>)
    returns (wireEvents: seq<WireEvent>)
    requires |prepared| == |routings|
    ensures |wireEvents| == |prepared|
    ensures forall i :: 0 <= i < |prepared| ==> wireEvents[i] == RoutedEvent(prepared[i], routings[i])
  {
    wireEvents := prepared;
    for i := 0 to |prepared|
      invariant |wireEvents| == |prepared|
      invariant forall j :: 0 <= j < i ==> wireEvents[j] == RoutedEvent(prepared[j], routings[j])
      invariant forall j :: i <= j < |prepared| ==> wireEvents[j] == prepared[j]
    {
      wireEvents := wireEvents[i := RoutedEvent(wireEvents[i], routings[i])];
    }
  }

  /** Reads the tail of every planned guard and records the derived scope under its id. */
  method DeriveScopes(
    labelled: map<string, Option<ConcurrencyScope>>, guards: map<string, RequiredGuard>, readers: string -> TailReader)
    returns (scopes: map<string, Option<ConcurrencyScope>>)
    ensures scopes.Keys == labelled.Keys + guards.Keys
    ensures forall id :: id in scopes ==>
            scopes[id] == if id in guards then DerivedScope(guards, readers, id) else labelled[id]
  {
    scopes := labelled;
    var pending := guards.Keys;
    while pending != {}
      invariant pending <= guards.Keys
      invariant scopes.Keys == labelled.Keys + (guards.Keys - pending)
      invariant forall id :: id in scopes ==>
                               scopes[id] == if id in guards && id !in pending then DerivedScope(guards, readers, id)
                                 else labelled[id]
      decreases pending
    {
      var id :| id in pending;
      scopes := scopes[id := DeriveConcurrencyScope(guards[id].routing, id, guards[id].streamId, readers(id))];
      pending := pending - {id};
    }
  }

  /** The guards a batch asks for, once its routings resolve. */
  function BatchRequests(sources: Option<EventSources>, events: seq<EventForEventSourceId>, options: AppendOptions)
    : seq<Option<Request>>
    requires AllResolve(sources, events, options.routing)
  {
    RequestsOf(RoutingsOf(sources, events, options.routing), events, options.routing.streamId,
      ExplicitIds(events, options))
  }

  /** The request a batch becomes: routed events, and one scope per label and per event source id. */
  ghost predicate IsRequestFor(
    request: BatchRequest, sources: Option<EventSources>, events: seq<EventForEventSourceId>, options: AppendOptions,
    guards: map<string, RequiredGuard>, readers: string -> TailReader)
    requires AllResolve(sources, events, options.routing)
  {
    && |request.events| == |events|
    && (forall i :: 0 <= i < |events| ==>
          request.events[i] == RoutedEvent(PreparedEvent(events[i], options.routing),
            RoutingsOf(sources, events, options.routing)[i]))
    && request.scopes.Keys == options.concurrencyScopes.Keys + SourceIds(events)
    && (forall id :: id in request.scopes ==>
          request.scopes[id] == ToContractConcurrencyScope(
            if id in guards then DerivedScope(guards, readers, id) else ExplicitScope(events, options, id)))
  }

  /** Resolves every routing of a batch and plans its guards, before anything is sent. */
  method PlanBatch(
    sources: Option<EventSources>, events: seq<EventForEventSourceId>, options: AppendOptions, explicitIds: set<string>)
    returns (r: Result<(seq<Option<ResolvedEventRouting>>, map<string, RequiredGuard>), AppendError>)
    requires explicitIds == ExplicitIds(events, options)
    ensures r.Ok? <==>
            AllResolve(sources, events, options.routing) && Plannable(BatchRequests(sources, events, options))
    ensures r.Ok? ==>
              && r.value.0 == RoutingsOf(sources, events, options.routing)
              && IsPlan(BatchRequests(sources, events, options), r.value.1)
              && r.value.1.Keys !! explicitIds && r.value.1.Keys <= SourceIds(events)
    ensures r.Err? ==> !r.error.ScopesWithoutEvents?
  {
    var resolved := ResolveRoutings(sources, events, options.routing);
    if resolved.Err? {
      return Err(RoutingFailed(resolved.error));
    }
    var routings := resolved.value;
    var plan := PlanDerivedGuards(routings, events, options.routing.streamId, explicitIds);
    if plan.Err? {
      return Err(DifferingGuards(plan.error));
    }
    GuardedIdsAreUnlabelled(routings, events, options, plan.value);
    return Ok((routings, plan.value));
  }

  /**
   * Prepares a batch for the wire. Explicit scopes reach the wire unchanged, every planned guard becomes the scope
   * derived for it, and an id with neither is sent unguarded.
   */
  method AppendMany(
    sources: Option<EventSources>, events: seq<EventForEventSourceId>, options: AppendOptions,
    readers: string -> TailReader)
    returns (r: Result<BatchRequest, AppendError>, ghost guards: map<string, RequiredGuard>)
    ensures r == Err(ScopesWithoutEvents) <==> events == [] && options.concurrencyScopes != map[]
    ensures r.Ok? <==>
            && (events == [] ==> options.concurrencyScopes == map[])
            && AllResolve(sources, events, options.routing)
            && Plannable(BatchRequests(sources, events, options))
    ensures r.Ok? ==>
              && IsPlan(BatchRequests(sources, events, options), guards)
              && guards.Keys !! ExplicitIds(events, options)
              && IsRequestFor(r.value, sources, events, options, guards, readers)
  {
    guards := map[];
    if |events| == 0 && |options.concurrencyScopes| > 0 {
      return Err(ScopesWithoutEvents), guards;
    }
    var scopes := PrepareScopes(events, options);
    var explicitIds := set id | id in scopes && scopes[id].Some?;
    assert explicitIds == ExplicitIds(events, options);
    var planned := PlanBatch(sources, events, options, explicitIds);
    if planned.Err? {
      return Err(planned.error), guards;
    }
    guards := planned.value.1;
    var request := SendBatch(events, options.routing, planned.value.0, scopes, planned.value.1, readers);
    RequestIsComplete(request, sources, events, options, scopes, guards, readers);
    r := Ok(request);
  }

  /** Routes the events, derives the guards and builds the request. */
  method SendBatch(
    events: seq<EventForEventSourceId>, shared: SharedRouting, routings: seq<Option<ResolvedEventRouting>>,
    scopes: map<string, Option<ConcurrencyScope>>, guards: map<string, RequiredGuard>, readers: string -> TailReader)
    returns (request: BatchRequest)
    requires |routings| == |events|
    ensures |request.events| == |events|
    ensures forall i :: 0 <= i < |events| ==>
            request.events[i] == RoutedEvent(PreparedEvent(events[i], shared), routings[i])
    ensures request.scopes.Keys == scopes.Keys + guards.Keys
    ensures forall id :: id in request.scopes ==>
                           request.scopes[id] == ToContractConcurrencyScope(if id in guards then
                             DerivedScope(guards, readers, id) else scopes[id])
  {
    var prepared := seq(|events|, i requires 0 <= i < |events| => PreparedEvent(events[i], shared));
    var wireEvents := ApplyBatchRouting(prepared, routings);
    var derived := DeriveScopes(scopes, guards, readers);
    request := BatchRequest(wireEvents, map id | id in derived :: ToContractConcurrencyScope(derived[id]));
  }

  lemma {:induction false} RequestIsComplete(
    request: BatchRequest, sources: Option<EventSources>, events: seq<EventForEventSourceId>, options: AppendOptions,
    scopes: map<string, Option<ConcurrencyScope>>, guards: map<string, RequiredGuard>, readers: string -> TailReader)
    requires AllResolve(sources, events, options.routing) && guards.Keys <= SourceIds(events)
    requires |request.events| == |events|
    requires forall i :: 0 <= i < |events| ==>
                           request.events[i] == RoutedEvent(PreparedEvent(events[i], options.routing),
                             RoutingsOf(sources, events, options.routing)[i])
    requires scopes.Keys == options.concurrencyScopes.Keys + SourceIds(events)
             && request.scopes.Keys == scopes.Keys + guards.Keys
    requires forall id :: id in scopes ==> scopes[id] == ExplicitScope(events, options, id)
    requires forall id :: id in request.scopes ==>
                            request.scopes[id] == ToContractConcurrencyScope(if id in guards then
                              DerivedScope(guards, readers, id) else scopes[id])
    ensures IsRequestFor(request, sources, events, options, guards, readers)
  {
  }

  lemma {:induction false} GuardedIdsAreUnlabelled(
    routings: seq<Option<ResolvedEventRouting>>, events: seq<EventForEventSourceId>, options: AppendOptions,
    guards: map<string, RequiredGuard>)
    requires |routings| == |events|
    requires IsPlan(RequestsOf(routings, events, options.routing.streamId, ExplicitIds(events, options)), guards)
    ensures guards.Keys !! ExplicitIds(events, options) && guards.Keys <= SourceIds(events)
  {
    var explicitIds := ExplicitIds(events, options);
    var requests := RequestsOf(routings, events, options.routing.streamId, explicitIds);
    forall id | id in guards ensures id !in explicitIds && id in SourceIds(events) {
      FirstRequestIsFirst(requests, id);
      var i :| 0 <= i < |requests| && requests[i].Some? && requests[i].value.eventSourceId == id;
      RequestsAreProper(routings, events, options.routing.streamId, explicitIds, i);
      assert events[i] in events;
    }
  }

  /** The scope that goes on the wire for an id: what it narrows by, and the tail it expects. */
  ghost predicate NarrowsAsDeclared(
    wire: WireScope, routing: ResolvedEventRouting, eventSourceId: string, streamId: Option<string>,
    readTail: TailReader)
  {
    var sourceType := if GuardsDimension(routing, EventSourceType) then Some(routing.definition.name) else None;
    var streamType := if GuardsDimension(routing, EventStreamType) && routing.stream.Some?
      then Some(routing.stream.value.name) else None;
    var stream := if GuardsDimension(routing, EventStreamId) then streamId else None;
    var tail := readTail(if GuardsDimension(routing, EventSourceId) then Some(eventSourceId) else None, sourceType,
      streamType, stream);
    && (wire.eventSourceId <==> GuardsDimension(routing, EventSourceId))
    && wire.eventSourceType == (if sourceType.Some? then sourceType.value else "")
    && wire.eventStreamType == (if streamType.Some? then streamType.value else "")
    && wire.eventStreamId == (if stream.Some? then stream.value else "")
    && wire.eventTypes == {}
    && (if tail == 18446744073709551615 || tail == 18446744073709551613 then
          wire.expectsNoMatchingEvent && wire.sequenceNumber == 18446744073709551615
        else !wire.expectsNoMatchingEvent && wire.sequenceNumber == tail)
  }

  /**
   * An explicit scope goes out as it is: the one labelled with the id, or else the one shared by the batch. Without
   * either, an id none of whose routes guards a dimension goes out unguarded.
   */
  lemma {:induction false} UnderivedScopesGoOut(
    request: BatchRequest, sources: Option<EventSources>, events: seq<EventForEventSourceId>, options: AppendOptions,
    guards: map<string, RequiredGuard>, readers: string -> TailReader, i: nat)
    requires AllResolve(sources, events, options.routing) && Plannable(BatchRequests(sources, events, options))
    requires IsPlan(BatchRequests(sources, events, options), guards)
    requires IsRequestFor(request, sources, events, options, guards, readers) && i < |events|
    ensures var id := events[i].eventSourceId;
            && id in request.scopes
            && (id in options.concurrencyScopes ==>
                  request.scopes[id] == ToContractConcurrencyScope(Some(options.concurrencyScopes[id])))
            && (id !in options.concurrencyScopes && options.concurrencyScope.Some? ==>
                  request.scopes[id] == ToContractConcurrencyScope(options.concurrencyScope))
            && (id !in options.concurrencyScopes && options.concurrencyScope.None?
                && (forall j :: 0 <= j < |events| && events[j].eventSourceId == id ==>
                      Unguarding(ResolveBatchRouting(sources, events[j], options.routing).value)) ==>
                  request.scopes[id] == WireScope(18446744073709551615, false, false, "", "", "", {}))
  {
    hide RequestOf, Plannable, DeriveConcurrencyScope, ResolveBatchRouting, GuardsDimension;
    var requests, id := BatchRequests(sources, events, options), events[i].eventSourceId;
    assert events[i] in events;
    FirstRequestIsFirst(requests, id);
    if ExplicitScope(events, options, id).Some? {
      GuardedIdsAreUnlabelled(RoutingsOf(sources, events, options.routing), events, options, guards);
    } else if id in guards {
      var k :| 0 <= k < |requests| && requests[k].Some? && requests[k].value.eventSourceId == id;
      RequestsAreProper(RoutingsOf(sources, events, options.routing), events, options.routing.streamId,
        ExplicitIds(events, options), k);
      AsksAsDeclared(sources, events, options, k);
    }
  }

  /**
   * When the route of an event guards a dimension and its id has no explicit scope, the scope of the id narrows by what
   * that route guards.
   */
  lemma {:induction false} DerivedScopesGoOut(
    request: BatchRequest, sources: Option<EventSources>, events: seq<EventForEventSourceId>, options: AppendOptions,
    guards: map<string, RequiredGuard>, readers: string -> TailReader, i: nat)
    requires AllResolve(sources, events, options.routing) && Plannable(BatchRequests(sources, events, options))
    requires IsPlan(BatchRequests(sources, events, options), guards)
    requires IsRequestFor(request, sources, events, options, guards, readers) && i < |events|
    requires ExplicitScope(events, options, events[i].eventSourceId).None?
    requires !Unguarding(ResolveBatchRouting(sources, events[i], options.routing).value)
    ensures events[i].eventSourceId in request.scopes
    ensures NarrowsAsDeclared(request.scopes[events[i].eventSourceId],
              ResolveBatchRouting(sources, events[i], options.routing).value.value, events[i].eventSourceId,
              if events[i].eventStreamId.Some? then events[i].eventStreamId else options.routing.streamId,
              readers(events[i].eventSourceId))
  {
    hide RequestOf, Plannable, DeriveConcurrencyScope, ResolveBatchRouting, GuardsDimension, IsPlan, GuardPredicateOf;
    var requests, id := BatchRequests(sources, events, options), events[i].eventSourceId;
    assert events[i] in events;
    AsksAsDeclared(sources, events, options, i);
    var guard := requests[i].value.guard;
    forall k | 0 <= k < |requests| && requests[k].Some? ensures Proper(requests[k].value) {
      RequestsAreProper(RoutingsOf(sources, events, options.routing), events, options.routing.streamId,
        ExplicitIds(events, options), k);
    }
    PlannedGuardSpeaksForEveryEvent(requests, guards, i, readers(id));
    DerivedScopeNarrowsAsDeclared(guard.routing, id, guard.streamId, readers(id));
  }

  /**
   * What the kernel gets of each event: its own route and stream values where it has them and the shared ones
   * otherwise, except that a resolved route puts its definition's name for the source and its type, and its stream's
   * name, if it has a stream, for the stream type.
   */
  lemma {:induction false} EventsGoOutRouted(
    request: BatchRequest, sources: Option<EventSources>, events: seq<EventForEventSourceId>, options: AppendOptions,
    guards: map<string, RequiredGuard>, readers: string -> TailReader, i: nat)
    requires AllResolve(sources, events, options.routing)
    requires IsRequestFor(request, sources, events, options, guards, readers) && i < |events|
    ensures var e, shared, routing :=
              events[i], options.routing, ResolveBatchRouting(sources, events[i], options.routing).value;
            var sourceType := if e.eventSourceType.Some? then e.eventSourceType else shared.sourceType;
            var streamType := if e.eventStreamType.Some? then e.eventStreamType else shared.streamType;
            && |request.events| == |events|
            && request.events[i] == WireEvent(e.eventSourceId, e.eventTypeId,
                 if routing.Some? then Some(routing.value.definition.name) else None,
                 if routing.Some? then Some(routing.value.definition.name) else sourceType,
                 if routing.Some? && routing.value.stream.Some? then Some(routing.value.stream.value.name)
                 else streamType,
                 if e.eventStreamId.Some? then e.eventStreamId else shared.streamId)
  {
    hide ResolveBatchRouting, DerivedScope, ExplicitScope;
  }

  ghost predicate Unguarding(routing: Option<ResolvedEventRouting>) {
    routing.Some? ==> forall d :: !GuardsDimension(routing.value, d)
  }

  /** An event of an id without explicit scope asks for a guard exactly when its route guards a dimension. */
  lemma {:induction false} AsksAsDeclared(
    sources: Option<EventSources>, events: seq<EventForEventSourceId>, options: AppendOptions, i: nat)
    requires AllResolve(sources, events, options.routing) && i < |events|
    requires ExplicitScope(events, options, events[i].eventSourceId).None?
    ensures var routing := ResolveBatchRouting(sources, events[i], options.routing).value;
            var request := BatchRequests(sources, events, options)[i];
            && (request.Some? <==> !Unguarding(routing))
            && (request.Some? ==>
                  && request.value.eventSourceId == events[i].eventSourceId
                  && request.value.guard == RequiredGuard(routing.value,
                       if events[i].eventStreamId.Some? then events[i].eventStreamId else options.routing.streamId))
  {
    hide GuardPredicateOf, Resolve;
    var routing := ResolveBatchRouting(sources, events[i], options.routing).value;
    if routing.Some? {
      PredicateNamesWhatIsGuarded(routing.value, events[i].eventSourceId,
        StreamIdOf(events[i], options.routing.streamId));
    }
  }

  // ----- single appends -----

  /** A single append: its own routing, and the explicit scope or the derived one. */
  function SingleAppend(
    sources: Option<EventSources>, eventSourceId: string, eventTypeId: string, shared: SharedRouting,
    explicitScope: Option<ConcurrencyScope>, readTail: TailReader)
    : Result<(WireEvent, WireScope), RoutingError>
  {
    match Resolve(sources, shared.eventSource, shared.eventStream, shared.sourceType, shared.streamType)
    case Err(error) => Err(error)
    case Ok(routing) =>
      var derived := match routing { case None => None case Some(r) =>
        DeriveConcurrencyScope(r, eventSourceId, shared.streamId, readTail) };
      Ok((AppendRouteFields(eventSourceId, eventTypeId, routing, shared),
        ToContractConcurrencyScope(explicitScope.OrElse(derived))))
  }

  /** A single append fails and sends exactly as a batch of that one event under the same options. */
  lemma {:induction false} SingleAppendIsABatchOfOne(
    sources: Option<EventSources>, event: EventForEventSourceId, options: AppendOptions, readers: string -> TailReader)
    requires event == EventForEventSourceId(event.eventSourceId, event.eventTypeId, None, None, None, None, None)
             && options.concurrencyScopes == map[]
    ensures var single := SingleAppend(sources, event.eventSourceId, event.eventTypeId, options.routing,
            options.concurrencyScope, readers(event.eventSourceId));
            && (single.Ok? <==> AllResolve(sources, [event], options.routing))
            && (single.Ok? ==> Plannable(BatchRequests(sources, [event], options)))
            && forall request, guards ::
                 && single.Ok? && IsPlan(BatchRequests(sources, [event], options), guards)
                 && IsRequestFor(request, sources, [event], options, guards, readers)
                 ==> request == BatchRequest([single.value.0], map[event.eventSourceId := single.value.1])
  {
    hide GuardPredicateOf, Resolve;
    var events, id := [event], event.eventSourceId;
    var single := SingleAppend(sources, id, event.eventTypeId, options.routing, options.concurrencyScope, readers(id));
    assert ResolveBatchRouting(sources, event, options.routing)
        == Resolve(sources, options.routing.eventSource, options.routing.eventStream, options.routing.sourceType,
          options.routing.streamType);
    assert events[0] == event && SourceIds(events) == {id} by { assert event in events; }
    if single.Ok? {
      var requests := BatchRequests(sources, events, options);
      var routing := ResolveBatchRouting(sources, event, options.routing).value;
      assert requests == [RequestOf(routing, event, options.routing.streamId, ExplicitIds(events, options))];
      OneRequest(requests[0], id);
      assert ExplicitScope(events, options, id) == options.concurrencyScope by { assert event in events; }
      forall request, guards | IsPlan(requests, guards)
        && IsRequestFor(request, sources, events, options, guards, readers)
        ensures request == BatchRequest([single.value.0], map[id := single.value.1])
      {
        SingleScope(routing, event, options, guards, readers);
        assert request.events == [request.events[0]];
        assert request.scopes.Keys == {id} && id in request.scopes;
        assert request.scopes == map[id := request.scopes[id]];
      }
    }
  }

  lemma {:induction false} OneRequest(request: Option<Request>, id: string)
    ensures FirstRequest([request], id) == if request.Some? && request.value.eventSourceId == id then request else None
  {
  }

  /** The scope a batch of one derives or is given is the one of the single append. */
  lemma {:induction false} SingleScope(
    routing: Option<ResolvedEventRouting>, event: EventForEventSourceId, options: AppendOptions,
    guards: map<string, RequiredGuard>, readers: string -> TailReader)
    requires event.eventStreamId.None? && options.concurrencyScopes == map[]
    requires IsPlan([RequestOf(routing, event, options.routing.streamId, ExplicitIds([event], options))], guards)
    ensures var id, shared := event.eventSourceId, options.routing;
            var derived := match routing { case None => None case Some(r) =>
              DeriveConcurrencyScope(r, id, shared.streamId, readers(id)) };
            ToContractConcurrencyScope(if id in guards then DerivedScope(guards, readers, id)
              else options.concurrencyScope)
            == ToContractConcurrencyScope(options.concurrencyScope.OrElse(derived))
  {
    var id := event.eventSourceId;
    var request := RequestOf(routing, event, options.routing.streamId, ExplicitIds([event], options));
    OneRequest(request, id);
    assert event in [event];
    assert id in ExplicitIds([event], options) <==> options.concurrencyScope.Some?;
    assert id in guards <==> FirstRequest([request], id).Some?;
  }

  // ----- the kernel, as assumed -----

  datatype StoredEvent = StoredEvent(
    eventSourceId: string, eventTypeId: string, eventSourceType: string, eventStreamType: string, eventStreamId: string)

  /** The kernel resolves a missing or empty route dimension. */
  function Store(event: WireEvent): StoredEvent {
    var route := (value: Option<string>, default: string) => if value.GetOr("") == "" then default else value.value;
    StoredEvent(event.eventSourceId, event.eventTypeId,
                route(event.eventSourceType, "Default"), route(event.eventStreamType, "All"),
                  route(event.eventStreamId, "Default"))
  }

  /** An empty dimension does not narrow. */
  predicate Narrows(dimension: string, value: string) {
    dimension == "" || dimension == value
  }

  predicate Selected(source: string, sourceType: string, streamType: string, streamId: string, e: StoredEvent) {
    Narrows(source, e.eventSourceId) && Narrows(sourceType, e.eventSourceType) && Narrows(streamType, e.eventStreamType)
      && Narrows(streamId, e.eventStreamId)
  }

  /** A tail read selects by the values it gives; a value that is empty does not narrow. */
  lemma {:induction false} SelectedByValues(
    source: string, sourceType: string, streamType: string, streamId: string, e: StoredEvent)
    ensures Selected(source, sourceType, streamType, streamId, e) <==>
            && (|source| > 0 ==> e.eventSourceId == source) && (|sourceType| > 0 ==> e.eventSourceType == sourceType)
            && (|streamType| > 0 ==> e.eventStreamType == streamType)
            && (|streamId| > 0 ==> e.eventStreamId == streamId)
  {
  }

  /** The number of the last selected event, or UNSET. */
  function Tail(log: seq<StoredEvent>, source: string, sourceType: string, streamType: string, streamId: string): nat {
    if log == [] then UNSET
    else if Selected(source, sourceType, streamType, streamId, log[|log| - 1]) then |log| - 1
    else Tail(log[..|log| - 1], source, sourceType, streamType, streamId)
  }

  /** The tail reader of a moment: the client sends an absent dimension as the empty text. */
  function ReaderOf(log: seq<StoredEvent>): TailReader {
    (source: Option<string>, sourceType: Option<string>, streamType: Option<string>, streamId: Option<string>) =>
      Tail(log, source.GetOr(""), sourceType.GetOr(""), streamType.GetOr(""), streamId.GetOr(""))
  }

  /** Whether an event is in the scope labelled with an event source id. */
  predicate Matches(scope: WireScope, eventSourceId: string, e: StoredEvent) {
    && (scope.eventSourceId ==> e.eventSourceId == eventSourceId)
    && Narrows(scope.eventSourceType, e.eventSourceType) && Narrows(scope.eventStreamType, e.eventStreamType)
    && Narrows(scope.eventStreamId, e.eventStreamId)
    && (scope.eventTypes == {} || e.eventTypeId in scope.eventTypes)
  }

  /** The guard of an append: no matching event at all, no check, or no matching event after the expected number. */
  predicate Permits(log: seq<StoredEvent>, eventSourceId: string, scope: WireScope) {
    forall i :: 0 <= i < |log| && Matches(scope, eventSourceId, log[i]) ==>
                  !scope.expectsNoMatchingEvent && (scope.sequenceNumber == UNSET || i <= scope.sequenceNumber)
  }

  lemma {:induction false} TailIsLastSelected(
    log: seq<StoredEvent>, source: string, sourceType: string, streamType: string, streamId: string)
    requires |log| <= BEFORE_FIRST
    ensures var tail := Tail(log, source, sourceType, streamType, streamId);
            && (tail == UNSET || tail < |log|)
            && (tail == UNSET <==> forall i :: 0 <= i < |log| ==>
               !Selected(source, sourceType, streamType, streamId, log[i]))
            && (forall i :: 0 <= i < |log| && Selected(source, sourceType, streamType, streamId, log[i]) ==> i <= tail)
            && (tail != UNSET ==> Selected(source, sourceType, streamType, streamId, log[tail]))
  {
    if log != [] {
      var rest := log[..|log| - 1];
      TailIsLastSelected(rest, source, sourceType, streamType, streamId);
      assert forall i :: 0 <= i < |rest| ==> log[i] == rest[i];
    }
  }

  /**
   * The guard of a derived scope is exact: an append guarded by a scope derived from a tail read passes if and only if
   * no event of that scope was appended since the read. Sequence numbers stay below the sentinels.
   */
  lemma {:induction false} DerivedGuardIsExact(log: seq<StoredEvent>, readAt: nat, guard: RequiredGuard, id: string)
    requires readAt <= |log| <= BEFORE_FIRST
    requires guard.routing.Dimensions() != {}
    ensures var scope := ToContractConcurrencyScope(DeriveConcurrencyScope(guard.routing, id, guard.streamId,
            ReaderOf(log[..readAt])));
            Permits(log, id, scope) <==> forall i :: readAt <= i < |log| ==> !Matches(scope, id, log[i])
  {
    var dimensions := guard.routing.Dimensions();
    var source := When(EventSourceId in dimensions, Some(id)).GetOr("");
    var sourceType := When(EventSourceType in dimensions, Some(guard.routing.SourceType())).GetOr("");
    var streamType := When(EventStreamType in dimensions, guard.routing.StreamType()).GetOr("");
    var streamId := When(EventStreamId in dimensions, guard.streamId).GetOr("");
    var read := log[..readAt];
    var tail := Tail(read, source, sourceType, streamType, streamId);
    TailIsLastSelected(read, source, sourceType, streamType, streamId);
    var scope := ToContractConcurrencyScope(DeriveConcurrencyScope(guard.routing, id, guard.streamId, ReaderOf(read)));
    assert scope.expectsNoMatchingEvent <==> tail == UNSET;
    forall i | 0 <= i < readAt && Matches(scope, id, log[i]) ensures tail != UNSET && i <= tail {
      assert read[i] == log[i];
      assert Selected(source, sourceType, streamType, streamId, log[i]);
    }
  }

  /** A guarded event is in its own derived scope, whatever the tail reader answers. */
  lemma {:induction false} GuardedEventIsInItsScope(
    event: EventForEventSourceId, routing: ResolvedEventRouting, shared: SharedRouting, readTail: TailReader)
    requires routing.Dimensions() != {}
    ensures var scope := ToContractConcurrencyScope(
                           DeriveConcurrencyScope(routing, event.eventSourceId, StreamIdOf(event, shared.streamId),
                             readTail));
            && Matches(scope, event.eventSourceId, Store(RoutedEvent(PreparedEvent(event, shared), Some(routing))))
            && (event.eventStreamId.None? ==>
                  Matches(scope, event.eventSourceId,
                    Store(AppendRouteFields(event.eventSourceId, event.eventTypeId, Some(routing), shared))))
  {
  }

  /** How a scope is encoded: without one nothing is checked, and what it does not narrow by is the empty text. */
  lemma {:induction false} ScopeByFields(scope: ConcurrencyScope)
    ensures ToContractConcurrencyScope(None) == WireScope(18446744073709551615, false, false, "", "", "", {})
    ensures var wire := ToContractConcurrencyScope(Some(scope));
            && wire.eventSourceId == scope.eventSourceId && wire.eventTypes == scope.eventTypes
            && wire.eventSourceType == (if scope.eventSourceType.Some? then scope.eventSourceType.value else "")
            && wire.eventStreamType == (if scope.eventStreamType.Some? then scope.eventStreamType.value else "")
            && wire.eventStreamId == (if scope.eventStreamId.Some? then scope.eventStreamId.value else "")
            && (scope.sequenceNumber == 18446744073709551613 ==>
                  wire.sequenceNumber == 18446744073709551615 && wire.expectsNoMatchingEvent)
            && (scope.sequenceNumber != 18446744073709551613 ==>
                  wire.sequenceNumber == scope.sequenceNumber && !wire.expectsNoMatchingEvent)
  {
  }

  /** The kernel stores a route value that is missing or empty as its default. */
  lemma {:induction false} StoredRoute(event: WireEvent)
    ensures var stored := Store(event);
            && stored.eventSourceId == event.eventSourceId && stored.eventTypeId == event.eventTypeId
            && (if event.eventSourceType in {None, Some("")} then stored.eventSourceType == "Default"
                else event.eventSourceType == Some(stored.eventSourceType))
            && (if event.eventStreamType in {None, Some("")} then stored.eventStreamType == "All"
                else event.eventStreamType == Some(stored.eventStreamType))
            && (if event.eventStreamId in {None, Some("")} then stored.eventStreamId == "Default"
                else event.eventStreamId == Some(stored.eventStreamId))
  {
  }

  /**
   * Only the sentinel itself is read back as "no matching event", and a number below the sentinels survives the wire.
   */
  lemma {:induction false} ScopeEncodingIsFaithful(scope: ConcurrencyScope)
    ensures var wire := ToContractConcurrencyScope(Some(scope));
            && (wire.expectsNoMatchingEvent <==> scope.sequenceNumber == BEFORE_FIRST)
            && (scope.sequenceNumber < BEFORE_FIRST ==>
               wire.sequenceNumber == scope.sequenceNumber && !wire.expectsNoMatchingEvent)
            && (wire.sequenceNumber == UNSET && !wire.expectsNoMatchingEvent <==> scope.sequenceNumber == UNSET)
  {
  }
}
