/**
 * Many clients over one log. A client plans a batch, reads the tail of each guard one at a time, and appends; the steps
 * of different clients interleave freely. Guards held over a run never lose an update.
 */
module ConcurrencyProtocol {
  import opened Wrappers
  import opened EventRouting
  import opened ConcurrencyGuards
  import opened GuardedAppends

  /** A guard whose tail was read when the log had readAt events. */
  datatype Held = Held(guard: RequiredGuard, scope: WireScope, readAt: nat)

  /** A batch a client is working on. */
  datatype Pending = Pending(
    events: seq<StoredEvent>, guards: map<string, RequiredGuard>, held: map<string, Held>,
    explicit: map<string, WireScope>)

  /** A batch the kernel accepted when the log had `at` events. */
  datatype Commit = Commit(at: nat, events: seq<StoredEvent>, held: map<string, Held>)

  datatype State = State(log: seq<StoredEvent>, clients: map<nat, Pending>, commits: seq<Commit>)

  datatype Action =
    | Begin(client: nat, sources: Option<EventSources>, events: seq<EventForEventSourceId>, options: AppendOptions)
    | ReadTail(client: nat, eventSourceId: string)
    | Append(client: nat)

  const INITIAL := State([], map[], [])

  ghost function GuardsOf(requests: seq<Option<Request>>, ids: set<string>): map<string, RequiredGuard> {
    map id | id in ids && FirstRequest(requests, id).Some? :: FirstRequest(requests, id).value.guard
  }

  ghost function StoredBatch(sources: Option<EventSources>, events: seq<EventForEventSourceId>, options: AppendOptions)
    : seq<StoredEvent>
    requires AllResolve(sources, events, options.routing)
  {
    seq(|events|, i requires 0 <= i < |events| =>
      Store(RoutedEvent(PreparedEvent(events[i], options.routing), RoutingsOf(sources, events, options.routing)[i])))
  }

  ghost function DerivedAt(guard: RequiredGuard, id: string, log: seq<StoredEvent>): WireScope {
    ToContractConcurrencyScope(DeriveConcurrencyScope(guard.routing, id, guard.streamId, ReaderOf(log)))
  }

  ghost function Step(s: State, action: Action): State {
    match action
    case Begin(client, sources, events, options) =>
      if client in s.clients || !AllResolve(sources, events, options.routing)
        || !Plannable(BatchRequests(sources, events, options)) then s
      else
        var explicitIds := ExplicitIds(events, options);
        s.(clients := s.clients[client := Pending(
          StoredBatch(sources, events, options), GuardsOf(BatchRequests(sources, events, options), SourceIds(events)),
            map[],
          map id | id in explicitIds :: ToContractConcurrencyScope(ExplicitScope(events, options, id)))])
    case ReadTail(client, id) =>
      if client !in s.clients || id !in s.clients[client].guards then s
      else
        var p := s.clients[client];
        s.(clients := s.clients[client := p.(held :=
          p.held[id := Held(p.guards[id], DerivedAt(p.guards[id], id, s.log), |s.log|)])])
    case Append(client) =>
      if client !in s.clients || s.clients[client].held.Keys != s.clients[client].guards.Keys
         || |s.log| + |s.clients[client].events| > BEFORE_FIRST then s
      else
        var p := s.clients[client];
        if Accepts(s.log, p)
        then State(s.log + p.events, s.clients - {client}, s.commits + [Commit(|s.log|, p.events, p.held)])
        else s.(clients := s.clients - {client})
  }

  /** The kernel validates every scope of a batch against the log at the moment it appends. */
  ghost predicate Accepts(log: seq<StoredEvent>, p: Pending) {
    && (forall id :: id in p.held ==> Permits(log, id, p.held[id].scope))
    && (forall id :: id in p.explicit ==> Permits(log, id, p.explicit[id]))
  }

  ghost function Run(s: State, actions: seq<Action>): State {
    if actions == [] then s else Step(Run(s, actions[..|actions| - 1]), actions[|actions| - 1])
  }

  /** Whether an event is in the scope of a guard; this does not depend on what the tail read answered. */
  ghost predicate InScope(guard: RequiredGuard, id: string, e: StoredEvent) {
    Matches(DerivedAt(guard, id, []), id, e)
  }

  ghost predicate HeldOk(log: seq<StoredEvent>, id: string, h: Held) {
    && h.guard.routing.Dimensions() != {}
    && h.readAt <= |log|
    && h.scope == DerivedAt(h.guard, id, log[..h.readAt])
  }

  ghost predicate PendingOk(log: seq<StoredEvent>, p: Pending) {
    && p.held.Keys <= p.guards.Keys
    && (forall id :: id in p.guards ==>
                       && p.guards[id].routing.Dimensions() != {}
                       && exists e :: e in p.events && InScope(p.guards[id], id, e))
    && (forall id :: id in p.held ==> HeldOk(log, id, p.held[id]) && p.held[id].guard == p.guards[id])
  }

  ghost predicate CommitOk(log: seq<StoredEvent>, c: Commit) {
    && c.at + |c.events| <= |log| && log[c.at..c.at + |c.events|] == c.events
    && forall id :: id in c.held ==>
                      && HeldOk(log, id, c.held[id]) && c.held[id].readAt <= c.at
                      && (forall i :: c.held[id].readAt <= i < c.at ==> !InScope(c.held[id].guard, id, log[i]))
                      && exists e :: e in c.events && InScope(c.held[id].guard, id, e)
  }

  ghost predicate Inv(s: State) {
    && |s.log| <= BEFORE_FIRST
    && (forall client :: client in s.clients ==> PendingOk(s.log, s.clients[client]))
    && (forall k :: 0 <= k < |s.commits| ==> CommitOk(s.log, s.commits[k]))
    && (forall j, k :: 0 <= j < k < |s.commits| ==> s.commits[j].at + |s.commits[j].events| <= s.commits[k].at)
  }

  lemma {:induction false} BeginIsOk(
    sources: Option<EventSources>, events: seq<EventForEventSourceId>, options: AppendOptions, log: seq<StoredEvent>,
    explicit: map<string, WireScope>)
    requires AllResolve(sources, events, options.routing)
    ensures var guards := GuardsOf(BatchRequests(sources, events, options), SourceIds(events));
            && IsPlan(BatchRequests(sources, events, options), guards)
            && PendingOk(log, Pending(StoredBatch(sources, events, options), guards, map[], explicit))
  {
    var routings := RoutingsOf(sources, events, options.routing);
    var requests := BatchRequests(sources, events, options);
    var stored := StoredBatch(sources, events, options);
    var guards := GuardsOf(requests, SourceIds(events));
    forall id | FirstRequest(requests, id).Some?
      ensures id in guards && guards[id].routing.Dimensions() != {}
      ensures exists e :: e in stored && InScope(guards[id], id, e)
    {
      FirstRequestIsFirst(requests, id);
      var i :| 0 <= i < |requests| && requests[i] == FirstRequest(requests, id)
               && requests[i].value.eventSourceId == id;
      RequestsAreProper(routings, events, options.routing.streamId, ExplicitIds(events, options), i);
      assert events[i] in events;
      GuardedEventIsInItsScope(events[i], routings[i].value, options.routing, ReaderOf([]));
      assert stored[i] in stored;
    }
  }

  lemma {:induction false} ExtendedLogKeepsHeld(log: seq<StoredEvent>, more: seq<StoredEvent>, id: string, h: Held)
    requires HeldOk(log, id, h)
    ensures HeldOk(log + more, id, h)
  {
    assert (log + more)[..h.readAt] == log[..h.readAt];
  }

  lemma {:induction false} ExtendedLogKeepsCommit(log: seq<StoredEvent>, more: seq<StoredEvent>, c: Commit)
    requires CommitOk(log, c)
    ensures CommitOk(log + more, c) && c.at + |c.events| <= |log|
  {
    assert (log + more)[c.at..c.at + |c.events|] == log[c.at..c.at + |c.events|];
    forall id | id in c.held ensures HeldOk(log + more, id, c.held[id]) {
      ExtendedLogKeepsHeld(log, more, id, c.held[id]);
    }
  }

  /** The kernel's check of a held guard passes exactly when nothing of its scope was appended since the read. */
  lemma {:induction false} HeldGuardIsExact(log: seq<StoredEvent>, id: string, h: Held)
    requires |log| <= BEFORE_FIRST && HeldOk(log, id, h)
    ensures Permits(log, id, h.scope) <==> forall i :: h.readAt <= i < |log| ==> !InScope(h.guard, id, log[i])
  {
    DerivedGuardIsExact(log, h.readAt, h.guard, id);
    forall i | h.readAt <= i < |log| ensures Matches(h.scope, id, log[i]) <==> InScope(h.guard, id, log[i]) {
    }
  }

  /** An accepted batch commits with nothing of its guards' scopes appended since their tails were read. */
  lemma {:induction false} AcceptedCommitIsOk(log: seq<StoredEvent>, p: Pending)
    requires |log| + |p.events| <= BEFORE_FIRST && PendingOk(log, p) && p.held.Keys == p.guards.Keys && Accepts(log, p)
    ensures CommitOk(log + p.events, Commit(|log|, p.events, p.held))
  {
    hide InScope, DerivedAt, Permits;
    var longer := log + p.events;
    assert longer[|log|..|log| + |p.events|] == p.events;
    forall id | id in p.held
      ensures HeldOk(longer, id, p.held[id])
      ensures forall i :: p.held[id].readAt <= i < |log| ==> !InScope(p.held[id].guard, id, longer[i])
    {
      ExtendedLogKeepsHeld(log, p.events, id, p.held[id]);
      HeldGuardIsExact(log, id, p.held[id]);
    }
  }

  lemma {:induction false} BeginKeepsInv(
    s: State, client: nat, sources: Option<EventSources>, events: seq<EventForEventSourceId>, options: AppendOptions)
    requires Inv(s)
    ensures Inv(Step(s, Begin(client, sources, events, options)))
  {
    hide PendingOk, CommitOk, Plannable, BatchRequests, StoredBatch, GuardsOf, ExplicitScope;
    if AllResolve(sources, events, options.routing) {
      var explicitIds := ExplicitIds(events, options);
      BeginIsOk(sources, events, options, s.log,
        map id | id in explicitIds :: ToContractConcurrencyScope(ExplicitScope(events, options, id)));
    }
  }

  lemma {:induction false} ReadIsOk(log: seq<StoredEvent>, p: Pending, id: string)
    requires PendingOk(log, p) && id in p.guards
    ensures PendingOk(log, p.(held := p.held[id := Held(p.guards[id], DerivedAt(p.guards[id], id, log), |log|)]))
  {
    hide DerivedAt, InScope;
    assert log[..|log|] == log;
  }

  lemma {:induction false} ReadKeepsInv(s: State, client: nat, id: string)
    requires Inv(s)
    ensures Inv(Step(s, ReadTail(client, id)))
  {
    hide PendingOk, CommitOk, DerivedAt;
    if client in s.clients && id in s.clients[client].guards {
      ReadIsOk(s.log, s.clients[client], id);
    }
  }

  lemma {:induction false} ExtendedLogKeepsPending(log: seq<StoredEvent>, more: seq<StoredEvent>, p: Pending)
    requires PendingOk(log, p)
    ensures PendingOk(log + more, p)
  {
    hide InScope, HeldOk;
    forall id | id in p.held ensures HeldOk(log + more, id, p.held[id]) {
      ExtendedLogKeepsHeld(log, more, id, p.held[id]);
    }
  }

  lemma {:induction false} AppendKeepsInv(s: State, client: nat)
    requires Inv(s)
    ensures Inv(Step(s, Append(client)))
  {
    hide PendingOk, CommitOk, Accepts;
    if client in s.clients && s.clients[client].held.Keys == s.clients[client].guards.Keys
       && |s.log| + |s.clients[client].events| <= BEFORE_FIRST && Accepts(s.log, s.clients[client]) {
      var p := s.clients[client];
      AcceptedCommitIsOk(s.log, p);
      forall k | 0 <= k < |s.commits|
        ensures CommitOk(s.log + p.events, s.commits[k]) && s.commits[k].at + |s.commits[k].events| <= |s.log|
      {
        ExtendedLogKeepsCommit(s.log, p.events, s.commits[k]);
      }
      forall other | other in s.clients ensures PendingOk(s.log + p.events, s.clients[other]) {
        ExtendedLogKeepsPending(s.log, p.events, s.clients[other]);
      }
    }
  }

  lemma {:induction false} StepKeepsInv(s: State, action: Action)
    requires Inv(s)
    ensures Inv(Step(s, action))
  {
    hide Inv, Step;
    match action
    case Begin(client, sources, events, options) => BeginKeepsInv(s, client, sources, events, options);
    case ReadTail(client, id) => ReadKeepsInv(s, client, id);
    case Append(client) => AppendKeepsInv(s, client);
  }

  lemma {:induction false} RunKeepsInv(actions: seq<Action>)
    ensures Inv(Run(INITIAL, actions))
  {
    if actions != [] {
      RunKeepsInv(actions[..|actions| - 1]);
      StepKeepsInv(Run(INITIAL, actions[..|actions| - 1]), actions[|actions| - 1]);
    }
  }

  /**
   * No lost update: in every interleaving, an append whose scope was derived from a tail read commits only if no event
   * of that scope was appended between the read and the commit.
   */
  lemma {:induction false} NoLostUpdate(actions: seq<Action>, k: nat, id: string, i: nat)
    requires var s := Run(INITIAL, actions);
             && k < |s.commits| && id in s.commits[k].held
             && s.commits[k].held[id].readAt <= i < s.commits[k].at
    ensures var s := Run(INITIAL, actions);
            s.commits[k].at <= |s.log| && !InScope(s.commits[k].held[id].guard, id, s.log[i])
  {
    RunKeepsInv(actions);
    assert CommitOk(Run(INITIAL, actions).log, Run(INITIAL, actions).commits[k]);
  }

  /**
   * Two commits guarded alike are ordered, whichever event source ids their guards are held for: the later one read its
   * tail after the earlier one committed. So two clients that derived the same scope from the same tail cannot both
   * commit.
   */
  lemma {:induction false} GuardedCommitsAreOrdered(actions: seq<Action>, j: nat, k: nat, a: string, b: string)
    requires var s := Run(INITIAL, actions);
             && j < k < |s.commits| && a in s.commits[j].held && b in s.commits[k].held
             && GuardPredicateOf(s.commits[j].held[a].guard.routing, a, s.commits[j].held[a].guard.streamId)
                == GuardPredicateOf(s.commits[k].held[b].guard.routing, b, s.commits[k].held[b].guard.streamId)
    ensures var s := Run(INITIAL, actions);
            && s.commits[j].at < s.commits[k].held[b].readAt
            && s.commits[j].held[a].scope != s.commits[k].held[b].scope
  {
    RunKeepsInv(actions);
    var s := Run(INITIAL, actions);
    assert CommitOk(s.log, s.commits[j]) && CommitOk(s.log, s.commits[k]);
    CommitsAreOrdered(s.log, s.commits[j], s.commits[k], a, b);
  }

  lemma {:induction false} CommitsAreOrdered(
    log: seq<StoredEvent>, first: Commit, second: Commit, a: string, b: string)
    requires |log| <= BEFORE_FIRST && CommitOk(log, first) && CommitOk(log, second)
             && first.at + |first.events| <= second.at
    requires a in first.held && b in second.held
    requires GuardPredicateOf(first.held[a].guard.routing, a, first.held[a].guard.streamId)
             == GuardPredicateOf(second.held[b].guard.routing, b, second.held[b].guard.streamId)
    ensures first.at < second.held[b].readAt
    ensures first.held[a].scope != second.held[b].scope
  {
    hide InScope, DerivedAt, GuardPredicateOf, HeldOk, CommitOk;
    var x := CommittedInScope(log, first, a);
    var _ := CommittedInScope(log, second, b);
    var g, h := first.held[a], second.held[b];
    SamePredicateSameScope(g.guard, a, h.guard, b, log[x]);
    assert x < h.readAt;
    DerivedNumber(log, h, b, x);
    DerivedBound(log, g, a);
  }

  /** What a commit keeps of its guards: each read before it, and one of its own events in the scope. */
  lemma {:induction false} CommittedInScope(log: seq<StoredEvent>, c: Commit, id: string) returns (x: nat)
    requires CommitOk(log, c) && id in c.held
    ensures c.at <= x < c.at + |c.events| <= |log| && InScope(c.held[id].guard, id, log[x])
    ensures HeldOk(log, id, c.held[id]) && c.held[id].readAt <= c.at && c.held[id].guard.routing.Dimensions() != {}
    ensures forall i :: c.held[id].readAt <= i < c.at ==> !InScope(c.held[id].guard, id, log[i])
  {
    hide InScope, DerivedAt;
    var e :| e in c.events && InScope(c.held[id].guard, id, e);
    var n :| 0 <= n < |c.events| && c.events[n] == e;
    x := c.at + n;
    assert log[x] == log[c.at..c.at + |c.events|][n];
  }

  /** Guards with one predicate select the same events, whichever event source ids they are held for. */
  lemma {:induction false} SamePredicateSameScope(
    g: RequiredGuard, a: string, h: RequiredGuard, b: string, e: StoredEvent)
    requires g.routing.Dimensions() != {} && h.routing.Dimensions() != {}
    requires GuardPredicateOf(g.routing, a, g.streamId) == GuardPredicateOf(h.routing, b, h.streamId)
    ensures InScope(g, a, e) <==> InScope(h, b, e)
  {
  }

  /** A tail read after an event of the scope expects that event or a later one. */
  lemma {:induction false} DerivedNumber(log: seq<StoredEvent>, h: Held, id: string, x: nat)
    requires |log| <= BEFORE_FIRST && HeldOk(log, id, h) && x < h.readAt && InScope(h.guard, id, log[x])
    ensures !h.scope.expectsNoMatchingEvent && x <= h.scope.sequenceNumber
  {
    DerivedGuardIsExact(log[..h.readAt], h.readAt, h.guard, id);
    assert log[..h.readAt][..h.readAt] == log[..h.readAt];
    assert log[..h.readAt][x] == log[x];
    DerivedBound(log, h, id);
  }

  /** A derived scope expects an event before its read, or none at all. */
  lemma {:induction false} DerivedBound(log: seq<StoredEvent>, h: Held, id: string)
    requires |log| <= BEFORE_FIRST && HeldOk(log, id, h)
    ensures h.scope.expectsNoMatchingEvent || h.scope.sequenceNumber < h.readAt
  {
    var dimensions := h.guard.routing.Dimensions();
    TailIsLastSelected(log[..h.readAt],
                       When(EventSourceId in dimensions, Some(id)).GetOr(""),
                       When(EventSourceType in dimensions, Some(h.guard.routing.SourceType())).GetOr(""),
                       When(EventStreamType in dimensions, h.guard.routing.StreamType()).GetOr(""),
                       When(EventStreamId in dimensions, h.guard.streamId).GetOr(""));
  }

  /**
   * A batch without explicit scopes is rejected only for a real conflict: an event of a guard's scope appended since
   * its read.
   */
  lemma {:induction false} RejectionIsARealConflict(actions: seq<Action>, client: nat)
    requires var s := Run(INITIAL, actions);
             client in s.clients && s.clients[client].explicit == map[]
               && s.clients[client].held.Keys == s.clients[client].guards.Keys
    ensures var s := Run(INITIAL, actions);
            !Accepts(s.log, s.clients[client]) <==>
            exists id, i :: && id in s.clients[client].held && s.clients[client].held[id].readAt <= i < |s.log|
                            && InScope(s.clients[client].held[id].guard, id, s.log[i])
  {
    RunKeepsInv(actions);
    var s := Run(INITIAL, actions);
    var p := s.clients[client];
    assert PendingOk(s.log, p);
    forall id | id in p.held
      ensures Permits(s.log, id, p.held[id].scope) <==>
              forall i :: p.held[id].readAt <= i < |s.log| ==> !InScope(p.held[id].guard, id, s.log[i])
    {
      HeldGuardIsExact(s.log, id, p.held[id]);
    }
  }

  // ----- what each step does -----

  /** A run takes its actions one after the other from where it starts. */
  lemma {:induction false} RunsGoOn(s: State, actions: seq<Action>, action: Action)
    ensures Run(s, []) == s && Run(s, actions + [action]) == Step(Run(s, actions), action)
    ensures INITIAL.log == [] && INITIAL.clients == map[] && INITIAL.commits == []
  {
    assert (actions + [action])[..|actions|] == actions;
  }

  /**
   * A batch that resolves and can be planned is taken by a client that has none: with the events the kernel will store,
   * the guards planned, none of them read, and the explicit scopes; nothing else changes.
   */
  lemma {:induction false} BeginTakes(
    s: State, client: nat, sources: Option<EventSources>, events: seq<EventForEventSourceId>, options: AppendOptions)
    ensures var after := Step(s, Begin(client, sources, events, options));
            && after.log == s.log && after.commits == s.commits
            && (forall other :: other != client ==>
                  (other in after.clients <==> other in s.clients)
                  && (other in s.clients ==> after.clients[other] == s.clients[other]))
            && (client in s.clients ==> after == s)
            && (!AllResolve(sources, events, options.routing) ==> after == s)
            && (AllResolve(sources, events, options.routing) ==>
                  var requests := BatchRequests(sources, events, options);
                  if client !in s.clients && Plannable(requests) then
                    && client in after.clients
                    && var p := after.clients[client];
                       && |p.events| == |events| && p.held == map[] && IsPlan(requests, p.guards)
                       && (forall i :: 0 <= i < |events| ==>
                             p.events[i] == Store(RoutedEvent(PreparedEvent(events[i], options.routing),
                               ResolveBatchRouting(sources, events[i], options.routing).value)))
                       && (forall id :: id in p.explicit <==> id in ExplicitIds(events, options))
                       && (forall id :: id in p.explicit ==>
                             p.explicit[id] == ToContractConcurrencyScope(ExplicitScope(events, options, id)))
                  else after == s)
  {
    hide Plannable, IsPlan, GuardsOf, ResolveBatchRouting, Store, ExplicitScope;
    if AllResolve(sources, events, options.routing) {
      BeginIsOk(sources, events, options, s.log, map[]);
    }
  }

  /**
   * A read holds a guard with the number of events there are and the scope derived from the tail as it is then; a later
   * read of the same guard replaces it. Nothing else changes.
   */
  lemma {:induction false} ReadTakes(s: State, client: nat, id: string)
    ensures var after := Step(s, ReadTail(client, id));
            && after.log == s.log && after.commits == s.commits && after.clients.Keys == s.clients.Keys
            && (forall other :: other in s.clients && other != client ==> after.clients[other] == s.clients[other])
            && (client in s.clients ==>
                  var p, q := s.clients[client], after.clients[client];
                  && q.events == p.events && q.guards == p.guards && q.explicit == p.explicit
                  && (id !in p.guards ==> q.held == p.held)
                  && (id in p.guards ==>
                        && q.held.Keys == p.held.Keys + {id}
                        && (forall k :: k in p.held && k != id ==> q.held[k] == p.held[k])
                        && q.held[id].guard == p.guards[id] && q.held[id].readAt == |s.log|
                        && q.held[id].scope == ToContractConcurrencyScope(DeriveConcurrencyScope(
                             p.guards[id].routing, id, p.guards[id].streamId, ReaderOf(s.log)))))
  {
  }

  /**
   * A batch all of whose guards are held is settled: the kernel stores its events behind those there are, and the
   * commit is remembered, exactly when each scope, held or explicit, permits it; either way the client is done with it.
   */
  lemma {:induction false} AppendTakes(s: State, client: nat)
    requires client in s.clients && |s.log| + |s.clients[client].events| <= BEFORE_FIRST
    ensures var p, after := s.clients[client], Step(s, Append(client));
            var permitted := && (forall id :: id in p.held ==> Permits(s.log, id, p.held[id].scope))
                             && (forall id :: id in p.explicit ==> Permits(s.log, id, p.explicit[id]));
            && (p.held.Keys != p.guards.Keys ==> after == s)
            && (p.held.Keys == p.guards.Keys ==>
                  && after.clients == s.clients - {client}
                  && (permitted ==>
                        && after.log == s.log + p.events
                        && after.commits == s.commits + [Commit(|s.log|, p.events, p.held)])
                  && (!permitted ==> after.log == s.log && after.commits == s.commits))
  {
    hide Permits;
  }

  /** What is in the scope of a guard: the events that agree with it in each dimension its route guards. */
  lemma {:induction false} InScopeByRoute(guard: RequiredGuard, id: string, e: StoredEvent)
    requires guard.routing.Dimensions() != {}
    ensures var routing := guard.routing;
            InScope(guard, id, e) <==>
              && (GuardsDimension(routing, EventSourceId) ==> e.eventSourceId == id)
              && (GuardsDimension(routing, EventSourceType) && |routing.definition.name| > 0 ==>
                    e.eventSourceType == routing.definition.name)
              && (GuardsDimension(routing, EventStreamType) && routing.stream.Some? ==>
                    |routing.stream.value.name| > 0 ==> e.eventStreamType == routing.stream.value.name)
              && (GuardsDimension(routing, EventStreamId) && guard.streamId.Some? && |guard.streamId.value| > 0 ==>
                    e.eventStreamId == guard.streamId.value)
  {
    hide GuardsDimension;
    DerivedScopeNarrowsAsDeclared(guard.routing, id, guard.streamId, ReaderOf([]));
    GuardsSomething(guard.routing);
  }

  lemma {:induction false} GuardsSomething(routing: ResolvedEventRouting)
    requires routing.Dimensions() != {}
    ensures exists d :: GuardsDimension(routing, d)
  {
    var d :| d in routing.Dimensions();
    assert GuardsDimension(routing, d);
  }

  /** A guarded append passes exactly when no event in its scope comes after the number it expects, or none at all. */
  lemma {:induction false} PermitsByNumber(log: seq<StoredEvent>, id: string, scope: WireScope)
    ensures Permits(log, id, scope) <==>
            forall i :: 0 <= i < |log| && IsIn(scope, id, log[i]) ==>
              && !scope.expectsNoMatchingEvent
              && (scope.sequenceNumber == 18446744073709551615 || i <= scope.sequenceNumber)
  {
    forall i | 0 <= i < |log| ensures IsIn(scope, id, log[i]) <==> Matches(scope, id, log[i]) {}
  }

  ghost predicate IsIn(scope: WireScope, id: string, e: StoredEvent) {
    && (scope.eventSourceId ==> e.eventSourceId == id)
    && (|scope.eventSourceType| > 0 ==> e.eventSourceType == scope.eventSourceType)
    && (|scope.eventStreamType| > 0 ==> e.eventStreamType == scope.eventStreamType)
    && (|scope.eventStreamId| > 0 ==> e.eventStreamId == scope.eventStreamId)
    && (scope.eventTypes != {} ==> e.eventTypeId in scope.eventTypes)
  }

  // ----- the request on the wire -----

  /**
   * A pending batch that stands for a request: its guards held from the tails the request's scopes were derived from.
   */
  ghost predicate StandsFor(
    p: Pending, log: seq<StoredEvent>, sources: Option<EventSources>, events: seq<EventForEventSourceId>,
    options: AppendOptions, readers: string -> TailReader)
    requires AllResolve(sources, events, options.routing)
  {
    && p.events == StoredBatch(sources, events, options)
    && IsPlan(BatchRequests(sources, events, options), p.guards) && p.held.Keys == p.guards.Keys
    && (forall id :: id in p.held ==>
          && p.held[id].readAt <= |log| && readers(id) == ReaderOf(log[..p.held[id].readAt])
          && p.held[id].scope == DerivedAt(p.guards[id], id, log[..p.held[id].readAt]))
    && p.explicit == map id | id in ExplicitIds(events, options) ::
         ToContractConcurrencyScope(ExplicitScope(events, options, id))
  }

  /** An id without a scope of its own, derived or explicit, is sent unguarded, and that permits every append. */
  lemma {:induction false} UnguardedPermits(log: seq<StoredEvent>, id: string)
    ensures Permits(log, id, ToContractConcurrencyScope(None))
  {
  }

  /**
   * What the protocol checks is what the request carries: the kernel accepts the pending batch exactly when it permits
   * every scope on the wire, and it stores the events of the request.
   */
  lemma {:induction false} AcceptsExactlyTheRequest(
    request: BatchRequest, p: Pending, log: seq<StoredEvent>, sources: Option<EventSources>,
    events: seq<EventForEventSourceId>, options: AppendOptions, readers: string -> TailReader)
    requires AllResolve(sources, events, options.routing) && StandsFor(p, log, sources, events, options, readers)
    requires IsRequestFor(request, sources, events, options, p.guards, readers)
    ensures Accepts(log, p) <==> forall id :: id in request.scopes ==> Permits(log, id, request.scopes[id])
    ensures |p.events| == |request.events| && forall i :: 0 <= i < |p.events| ==>
            p.events[i] == Store(request.events[i])
  {
    hide Permits, BatchRequests, IsPlan, StoredBatch, StandsFor, IsRequestFor, AllResolve;
    StoredAsSent(request, sources, events, options, p.guards, readers);
    IdsAreLabelled(request, p, log, sources, events, options, readers);
    forall id | id in request.scopes
      ensures Permits(log, id, request.scopes[id]) <==>
              && (id in p.held ==> Permits(log, id, p.held[id].scope))
              && (id in p.explicit ==> Permits(log, id, p.explicit[id]))
    {
      ScopeOnTheWire(request, p, log, sources, events, options, readers, id);
    }
  }

  lemma {:induction false} IdsAreLabelled(
    request: BatchRequest, p: Pending, log: seq<StoredEvent>, sources: Option<EventSources>,
    events: seq<EventForEventSourceId>, options: AppendOptions, readers: string -> TailReader)
    requires AllResolve(sources, events, options.routing) && StandsFor(p, log, sources, events, options, readers)
    requires IsRequestFor(request, sources, events, options, p.guards, readers)
    ensures p.events == StoredBatch(sources, events, options)
    ensures p.held.Keys + p.explicit.Keys <= request.scopes.Keys
  {
    hide BatchRequests, ExplicitScope, ExplicitIds, DerivedAt, DerivedScope, ToContractConcurrencyScope, ReaderOf,
      RoutedEvent, PreparedEvent, IsPlan, StoredBatch, RoutingsOf, AllResolve;
    ScopesAreLabelled(p.guards, sources, events, options);
  }

  lemma {:induction false} StoredAsSent(
    request: BatchRequest, sources: Option<EventSources>, events: seq<EventForEventSourceId>, options: AppendOptions,
    guards: map<string, RequiredGuard>, readers: string -> TailReader)
    requires AllResolve(sources, events, options.routing)
    requires IsRequestFor(request, sources, events, options, guards, readers)
    ensures var stored := StoredBatch(sources, events, options);
            |stored| == |request.events| && forall i :: 0 <= i < |stored| ==> stored[i] == Store(request.events[i])
  {
    hide Store, RoutedEvent, PreparedEvent, DerivedScope, ExplicitScope, RoutingsOf;
  }

  /** The ids a batch guards and those with explicit scopes are different ones, and all of them are labelled. */
  lemma {:induction false} ScopesAreLabelled(
    guards: map<string, RequiredGuard>, sources: Option<EventSources>, events: seq<EventForEventSourceId>,
    options: AppendOptions)
    requires AllResolve(sources, events, options.routing) && IsPlan(BatchRequests(sources, events, options), guards)
    ensures guards.Keys !! ExplicitIds(events, options)
    ensures guards.Keys + ExplicitIds(events, options) <= options.concurrencyScopes.Keys + SourceIds(events)
    ensures forall id :: id in options.concurrencyScopes.Keys + SourceIds(events) && id !in ExplicitIds(events, options)
              ==> ExplicitScope(events, options, id).None?
  {
    hide IsPlan;
    GuardedIdsAreUnlabelled(RoutingsOf(sources, events, options.routing), events, options, guards);
  }

  lemma {:induction false} ScopeOnTheWire(
    request: BatchRequest, p: Pending, log: seq<StoredEvent>, sources: Option<EventSources>,
    events: seq<EventForEventSourceId>, options: AppendOptions, readers: string -> TailReader, id: string)
    requires AllResolve(sources, events, options.routing) && StandsFor(p, log, sources, events, options, readers)
    requires IsRequestFor(request, sources, events, options, p.guards, readers) && id in request.scopes
    ensures Permits(log, id, request.scopes[id]) <==>
            && (id in p.held ==> Permits(log, id, p.held[id].scope))
            && (id in p.explicit ==> Permits(log, id, p.explicit[id]))
  {
    hide Permits, BatchRequests, ExplicitScope, ExplicitIds, DeriveConcurrencyScope, ToContractConcurrencyScope,
      ReaderOf,
      Store, RoutedEvent, PreparedEvent, IsPlan, StoredBatch;
    ScopesAreLabelled(p.guards, sources, events, options);
    UnguardedPermits(log, id);
  }
}
