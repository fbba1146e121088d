/** How an append is routed through a registered event source definition, one event at a time. */
module EventRouting {
  import opened Wrappers

  /** The dimensions that can take part in a concurrency check; the source combines them as bit flags. */
  datatype Dimension = EventSourceId | EventSourceType | EventStreamType | EventStreamId

  datatype EventStreamDefinition = EventStreamDefinition(name: string, concurrency: set<Dimension>)

  datatype EventSourceDefinition = EventSourceDefinition(
    name: string, concurrency: set<Dimension>, streams: seq<EventStreamDefinition>)

  /** The registered definitions by name. */
  type EventSources = map<string, EventSourceDefinition>

  datatype RoutingError =
    | EventStreamRequiresEventSource(stream: string)
    | UnknownEventSource(name: string)
    | EventRoutingContradictsEventSource(definition: string, expected: string, actual: string)
    | EventStreamDoesNotBelongToEventSource(definition: string, stream: string)

  datatype ResolvedEventRouting = ResolvedEventRouting(
    definition: EventSourceDefinition, stream: Option<EventStreamDefinition>) {
    function SourceType(): string {
      definition.name
    }

    function StreamType(): Option<string> {
      if stream.Some? then Some(stream.value.name) else None
    }

    /** The stream's dimensions when it declares any, otherwise the source's. */
    function Dimensions(): set<Dimension> {
      if stream.Some? && stream.value.concurrency != {} then stream.value.concurrency else definition.concurrency
    }
  }

  function FindStream(streams: seq<EventStreamDefinition>, name: string): Option<EventStreamDefinition> {
    if streams == [] then None
    else if streams[0].name == name then Some(streams[0])
    else FindStream(streams[1..], name)
  }

  predicate IsSet(value: Option<string>, unspecified: set<string>) {
    value.Some? && value.value != "" && value.value !in unspecified
  }

  function Resolve(
    sources: Option<EventSources>, eventSource: Option<string>, stream: Option<string>, sourceType: Option<string>,
    streamType: Option<string>): Result<Option<ResolvedEventRouting>, RoutingError>
  {
    if eventSource.None? then
      if stream.Some? then Err(EventStreamRequiresEventSource(stream.value)) else Ok(None)
    else if sources.None? || eventSource.value !in sources.value then Err(UnknownEventSource(eventSource.value))
    else
      var definition := sources.value[eventSource.value];
      if IsSet(sourceType, {"Default", "Unspecified"}) && sourceType.value != definition.name then
        Err(EventRoutingContradictsEventSource(definition.name, definition.name, sourceType.value))
      else
        var explicitStream := if IsSet(streamType, {"All"}) then streamType else None;
        if stream.Some? && explicitStream.Some? && stream != explicitStream then
          Err(EventRoutingContradictsEventSource(definition.name, stream.value, explicitStream.value))
        else
          var name := stream.OrElse(explicitStream);
          if name.None? then Ok(Some(ResolvedEventRouting(definition, None)))
          else match FindStream(definition.streams, name.value)
            case None => Err(EventStreamDoesNotBelongToEventSource(definition.name, name.value))
            case Some(found) => Ok(Some(ResolvedEventRouting(definition, Some(found))))
  }

  datatype EventForEventSourceId = EventForEventSourceId(
    eventSourceId: string, eventTypeId: string,
    eventSource: Option<string>, eventStream: Option<string>,
    eventSourceType: Option<string>, eventStreamType: Option<string>, eventStreamId: Option<string>)

  /** The routing options shared by an append. */
  datatype SharedRouting = SharedRouting(
    eventSource: Option<string>, eventStream: Option<string>,
    sourceType: Option<string>, streamType: Option<string>, streamId: Option<string>)

  /** Per-event values win over the shared ones, and a shared stream is never inherited into an event's own source. */
  function ResolveBatchRouting(sources: Option<EventSources>, event: EventForEventSourceId, shared: SharedRouting)
    : Result<Option<ResolvedEventRouting>, RoutingError>
  {
    Resolve(sources, event.eventSource.OrElse(shared.eventSource),
            event.eventStream.OrElse(if event.eventSource.Some? then None else shared.eventStream),
            event.eventSourceType.OrElse(shared.sourceType), event.eventStreamType.OrElse(shared.streamType))
  }

  lemma {:induction false} FoundStreamIsDeclared(streams: seq<EventStreamDefinition>, name: string)
    ensures FindStream(streams, name).Some? <==> exists s :: s in streams && s.name == name
    ensures FindStream(streams, name).Some? ==>
            FindStream(streams, name).value in streams && FindStream(streams, name).value.name == name
  {
    if streams != [] {
      FoundStreamIsDeclared(streams[1..], name);
      assert streams == [streams[0]] + streams[1..];
      assert streams[0] in streams;
    }
  }

  /**
   * A resolved route never contradicts the caller: the definition is the registered one for the event's own source or
   * else the shared one, its stream is declared by that definition, and every explicit type that is not a wildcard
   * agrees, whether the event carries it or inherits it.
   */
  lemma {:induction false} ResolvedRouteAgrees(
    sources: Option<EventSources>, event: EventForEventSourceId, shared: SharedRouting)
    requires ResolveBatchRouting(sources, event, shared).Ok? && ResolveBatchRouting(sources, event, shared).value.Some?
    ensures var routing := ResolveBatchRouting(sources, event, shared).value.value;
            var source := event.eventSource.OrElse(shared.eventSource);
            var sourceType := event.eventSourceType.OrElse(shared.sourceType);
            var streamType := event.eventStreamType.OrElse(shared.streamType);
            && source.Some? && sources.Some? && source.value in sources.value
               && routing.definition == sources.value[source.value]
            && (routing.stream.Some? ==> routing.stream.value in routing.definition.streams)
            && (event.eventStream.Some? ==> routing.StreamType() == event.eventStream)
            && (event.eventStream.None? && event.eventSource.None? && shared.eventStream.Some? ==>
               routing.StreamType() == shared.eventStream)
            && (IsSet(sourceType, {"Default", "Unspecified"}) ==> routing.SourceType() == sourceType.value)
            && (IsSet(streamType, {"All"}) ==> routing.StreamType() == streamType)
  {
    var stream := event.eventStream.OrElse(if event.eventSource.Some? then None else shared.eventStream);
    var streamType := event.eventStreamType.OrElse(shared.streamType);
    var name := stream.OrElse(if IsSet(streamType, {"All"}) then streamType else None);
    var definition := sources.value[event.eventSource.OrElse(shared.eventSource).value];
    if name.Some? {
      FoundStreamIsDeclared(definition.streams, name.value);
    }
  }

  /** A text that says something: present, not empty and none of the wildcards. */
  ghost predicate Says(value: Option<string>, wildcards: set<string>) {
    match value
    case None => false
    case Some(text) => |text| > 0 && text !in wildcards
  }

  /** Which calls resolve, to what, and what each other one is refused for. */
  lemma {:induction false} ResolvesExactly(
    sources: Option<EventSources>, source: Option<string>, stream: Option<string>, sourceType: Option<string>,
    streamType: Option<string>)
    ensures var r := Resolve(sources, source, stream, sourceType, streamType);
            && (r == Ok(None) <==> source.None? && stream.None?)
            && (stream.Some? ==> (r == Err(EventStreamRequiresEventSource(stream.value)) <==> source.None?))
            && (source.Some? ==>
                  (r == Err(UnknownEventSource(source.value)) <==>
                   (sources.None? || source.value !in sources.value)))
            && (source.Some? && sources.Some? && source.value in sources.value ==>
                  var definition := sources.value[source.value];
                  var otherSource := Says(sourceType, {"Default", "Unspecified"})
                    && sourceType != Some(definition.name);
                  var otherStream := stream.Some? && Says(streamType, {"All"}) && stream != streamType;
                  var name := if stream.Some? then stream else if Says(streamType, {"All"}) then streamType else None;
                  && (otherSource ==>
                        r == Err(EventRoutingContradictsEventSource(definition.name, definition.name,
                                   sourceType.value)))
                  && (!otherSource && otherStream ==>
                        r == Err(EventRoutingContradictsEventSource(definition.name, stream.value, streamType.value)))
                  && (!otherSource && !otherStream && name.None? ==>
                        r == Ok(Some(ResolvedEventRouting(definition, None))))
                  && (!otherSource && !otherStream && name.Some? ==>
                        if exists s :: s in definition.streams && s.name == name.value then
                          exists k :: && 0 <= k < |definition.streams| && definition.streams[k].name == name.value
                                      && (forall j :: 0 <= j < k ==> definition.streams[j].name != name.value)
                                      && r == Ok(Some(ResolvedEventRouting(definition, Some(definition.streams[k]))))
                        else r == Err(EventStreamDoesNotBelongToEventSource(definition.name, name.value))))
  {
    hide FindStream;
    if source.Some? && sources.Some? && source.value in sources.value {
      var name := if stream.Some? then stream else if Says(streamType, {"All"}) then streamType else None;
      if name.Some? {
        FoundStreamIsDeclared(sources.value[source.value].streams, name.value);
        FoundStreamIsFirst(sources.value[source.value].streams, name.value);
      }
    }
  }

  lemma {:induction false} FoundStreamIsFirst(streams: seq<EventStreamDefinition>, name: string)
    ensures FindStream(streams, name).Some? ==>
              exists k :: && 0 <= k < |streams| && streams[k] == FindStream(streams, name).value
                          && streams[k].name == name && forall j :: 0 <= j < k ==> streams[j].name != name
  {
    if streams != [] && streams[0].name != name && FindStream(streams, name).Some? {
      var rest := streams[1..];
      FoundStreamIsFirst(rest, name);
      var k :| && 0 <= k < |rest| && rest[k] == FindStream(rest, name).value
               && rest[k].name == name && forall j :: 0 <= j < k ==> rest[j].name != name;
      assert streams[k + 1] == rest[k];
      forall j | 0 <= j < k + 1 ensures streams[j].name != name {
        assert j > 0 ==> streams[j] == rest[j - 1];
      }
    }
  }

  /** Each value resolved is the event's own where it has one, and the stream goes with the source. */
  lemma {:induction false} OwnValuesWin(
    sources: Option<EventSources>, event: EventForEventSourceId, shared: SharedRouting, resolved: SharedRouting)
    requires resolved.eventSource == if event.eventSource.Some? then event.eventSource else shared.eventSource
    requires event.eventStream.Some? ==> resolved.eventStream == event.eventStream
    requires event.eventStream.None? && event.eventSource.None? ==> resolved.eventStream == shared.eventStream
    requires event.eventStream.None? && event.eventSource.Some? ==> resolved.eventStream == None
    requires resolved.sourceType == if event.eventSourceType.Some? then event.eventSourceType else shared.sourceType
    requires resolved.streamType == if event.eventStreamType.Some? then event.eventStreamType else shared.streamType
    ensures ResolveBatchRouting(sources, event, shared)
            == Resolve(sources, resolved.eventSource, resolved.eventStream, resolved.sourceType, resolved.streamType)
  {
  }

  /** An event that names its own source resolves alike whatever stream the options share. */
  lemma {:induction false} SharedStreamIsNotInherited(
    sources: Option<EventSources>, event: EventForEventSourceId, shared: SharedRouting, stream: Option<string>)
    requires event.eventSource.Some?
    ensures ResolveBatchRouting(sources, event, shared)
            == ResolveBatchRouting(sources, event, shared.(eventStream := stream))
  {
  }
}
