/** The indexed paths of a read model: a depth-first walk of a type graph that may have cycles. */
module IndexCollector {
  import opened Wrappers
  import opened Texts

  type TypeId = string

  /** A nested type: one of the built-in constructors, a concept, a Guid or a type with members of its own. */
  datatype TypeRef = BuiltIn | Concept | Guid | Complex(id: TypeId)

  /** A property's type. A list has the child type its decorator gives and the one its generic argument gives. */
  datatype PropertyType = List(decorated: Option<TypeRef>, generic: Option<TypeRef>) | Single(ref: Option<TypeRef>)

  datatype Member = Member(name: string, indexed: bool, propertyType: PropertyType)

  type TypeGraph = map<TypeId, seq<Member>>

  function NestedRef(m: Member): Option<TypeRef> {
    match m.propertyType
    case List(decorated, generic) => decorated.OrElse(generic)
    case Single(ref) => ref
  }

  /** The type the walk goes on to, if any. */
  function Nested(m: Member): Option<TypeId> {
    match NestedRef(m)
    case Some(Complex(id)) => Some(id)
    case _ => None
  }

  /**
   * Whether a member is of a type, or a list of it. What the decorator of a list gives is decisive, even when it is a
   * type without members of its own.
   */
  ghost predicate GoesTo(m: Member, t: TypeId) {
    match m.propertyType
    case Single(Some(Complex(id))) => id == t
    case List(Some(Complex(id)), _) => id == t
    case List(None, Some(Complex(id))) => id == t
    case _ => false
  }

  lemma {:induction false} NestedGoesTo(m: Member, t: TypeId)
    ensures Nested(m) == Some(t) <==> GoesTo(m, t)
  {
  }

  /** The graph holds every type a member of it leads to. */
  ghost predicate Closed(g: TypeGraph) {
    forall t, p, u :: t in g && 0 <= p < |g[t]| && GoesTo(g[t][p], u) ==> u in g
  }

  function Dot(prefix: string, name: string): string {
    if prefix != "" then prefix + "." + name else name
  }

  function Dotted(segments: seq<string>): string {
    if segments == [] then "" else Dot(Dotted(segments[..|segments| - 1]), segments[|segments| - 1])
  }

  /** Following the named members from the root ends at a type. */
  ghost predicate LeadsTo(g: TypeGraph, root: TypeId, segments: seq<string>, t: TypeId)
    decreases |segments|
  {
    if segments == [] then t == root
    else exists u, p ::
           && u in g && 0 <= p < |g[u]| && g[u][p].name == segments[|segments| - 1] && GoesTo(g[u][p], t)
           && LeadsTo(g, root, segments[..|segments| - 1], u)
  }

  ghost predicate Reachable(g: TypeGraph, root: TypeId, t: TypeId) {
    exists segments :: LeadsTo(g, root, segments, t)
  }

  /**
   * The member a listed path stands for: the type that declares it, its position there and the names that lead to it.
   */
  datatype Stop = Stop(segments: seq<string>, owner: TypeId, position: nat)

  ghost predicate IsStop(g: TypeGraph, root: TypeId, stop: Stop) {
    && stop.owner in g && stop.position < |g[stop.owner]| && stop.segments != []
    && g[stop.owner][stop.position].indexed
    && g[stop.owner][stop.position].name == stop.segments[|stop.segments| - 1]
    && LeadsTo(g, root, stop.segments[..|stop.segments| - 1], stop.owner)
  }

  /** Each listed path is the dotted form of a way from the root to a marked member of an expanded type. */
  ghost predicate Sound(g: TypeGraph, root: TypeId, expanded: seq<TypeId>, indexes: seq<string>, stops: seq<Stop>) {
    && |indexes| == |stops|
    && forall i :: 0 <= i < |stops| ==>
         IsStop(g, root, stops[i]) && indexes[i] == Dotted(stops[i].segments) && stops[i].owner in expanded
  }

  ghost predicate Once(expanded: seq<TypeId>, stops: seq<Stop>) {
    && (forall i, j :: 0 <= i < j < |expanded| ==> expanded[i] != expanded[j])
    && (forall i, j :: 0 <= i < j < |stops| ==>
       !(stops[i].owner == stops[j].owner && stops[i].position == stops[j].position))
  }

  ghost predicate Listed(stops: seq<Stop>, t: TypeId, p: nat) {
    exists i :: 0 <= i < |stops| && stops[i].owner == t && stops[i].position == p
  }

  /** The members of a type before a position: the marked ones are listed and the types they lead to are visited. */
  ghost predicate DoneUpTo(g: TypeGraph, t: TypeId, n: nat, visited: set<TypeId>, stops: seq<Stop>)
    requires t in g && n <= |g[t]|
  {
    forall p :: 0 <= p < n ==>
      && (g[t][p].indexed ==> Listed(stops, t, p))
      && (Nested(g[t][p]).Some? ==> Nested(g[t][p]).value in visited)
  }

  /** Every visited type outside those still being walked is done. */
  ghost predicate Done(g: TypeGraph, visited: set<TypeId>, walking: set<TypeId>, stops: seq<Stop>) {
    forall t :: t in visited && t !in walking ==> t in g && DoneUpTo(g, t, |g[t]|, visited, stops)
  }

  /** The paths a depth-first walk lists, members in their order and each type on its first path, and what it visits. */
  ghost function Walk(g: TypeGraph, t: TypeId, prefix: string, visited: set<TypeId>): (r: (seq<string>, set<TypeId>))
    requires Closed(g) && t in g && visited <= g.Keys
    ensures visited <= r.1 <= g.Keys
    decreases g.Keys - visited, 0
  {
    if t in visited then ([], visited) else WalkMembers(g, t, 0, prefix, visited + {t})
  }

  ghost function WalkMembers(g: TypeGraph, t: TypeId, p: nat, prefix: string, visited: set<TypeId>)
    : (r: (seq<string>, set<TypeId>))
    requires Closed(g) && t in g && p <= |g[t]| && visited <= g.Keys
    ensures visited <= r.1 <= g.Keys
    decreases g.Keys - visited, |g[t]| - p + 1
  {
    if p == |g[t]| then ([], visited)
    else
      var m := g[t][p];
      var path := if |prefix| == 0 then m.name else prefix + "." + m.name;
      var below := if u :| GoesTo(m, u) then Walk(g, u, path, visited) else ([], visited);
      var after := WalkMembers(g, t, p + 1, prefix, below.1);
      ((if m.indexed then [path] else []) + below.0 + after.0, after.1)
  }

  class Collector {
    const graph: TypeGraph
    const root: TypeId
    var indexes: seq<string>
    var visited: set<TypeId>
    ghost var expanded: seq<TypeId>
    ghost var stops: seq<Stop>

    constructor (graph: TypeGraph, root: TypeId)
      ensures this.graph == graph && this.root == root
      ensures indexes == [] && visited == {} && expanded == [] && stops == []
    {
      this.graph, this.root := graph, root;
      indexes, visited, expanded, stops := [], {}, [], [];
    }

    ghost predicate Valid()
      reads this
    {
      && Closed(graph) && visited <= graph.Keys
      && (forall t :: t in visited <==> t in expanded)
      && Sound(graph, root, expanded, indexes, stops)
      && Once(expanded, stops)
      && forall t :: t in visited ==> Reachable(graph, root, t)
    }

    /** Adds a type to the visited ones. */
    method Visit(current: TypeId, ghost segments: seq<string>, ghost walking: set<TypeId>)
      requires Valid() && current in graph && current !in visited && LeadsTo(graph, root, segments, current)
      requires Done(graph, visited, walking, stops)
      modifies this`visited, this`expanded
      ensures Valid() && visited == old(visited) + {current} && expanded == old(expanded) + [current]
      ensures Done(graph, visited, walking + {current}, stops)
      ensures forall i :: 0 <= i < |stops| ==> stops[i].owner != current
    {
      visited := visited + {current};
      expanded := expanded + [current];
      assert Reachable(graph, root, current);
    }

    /** Lists a marked member. */
    method Push(path: string, ghost stop: Stop, ghost walking: set<TypeId>)
      requires Valid() && IsStop(graph, root, stop) && path == Dotted(stop.segments) && stop.owner in visited
      requires !Listed(stops, stop.owner, stop.position)
      requires Done(graph, visited, walking, stops)
      modifies this`indexes, this`stops
      ensures Valid() && indexes == old(indexes) + [path] && stops == old(stops) + [stop]
      ensures Done(graph, visited, walking, stops)
      ensures Listed(stops, stop.owner, stop.position)
    {
      indexes := indexes + [path];
      stops := stops + [stop];
      StopsGrow(graph, visited, visited, walking, old(stops), stops);
      assert stops[|stops| - 1] == stop;
    }

    /** Walks a type that the names in `segments` lead to, unless it was visited. */
    method Collect(current: TypeId, prefix: string, ghost segments: seq<string>, ghost walking: set<TypeId>)
      requires Valid() && current in graph && walking <= visited
      requires LeadsTo(graph, root, segments, current) && prefix == Dotted(segments)
      requires Done(graph, visited, walking, stops)
      modifies this
      ensures Valid() && old(visited) <= visited && current in visited
      ensures Done(graph, visited, walking, stops)
      ensures old(stops) <= stops && forall i :: |old(stops)| <= i < |stops| ==> stops[i].owner !in old(visited)
      ensures old(visited) <= graph.Keys
              && indexes == old(indexes) + Walk(graph, current, prefix, old(visited)).0
              && visited == Walk(graph, current, prefix, old(visited)).1
      decreases graph.Keys - visited
    {
      hide WalkMembers, LeadsTo, Dotted, IsStop, Sound, Once, Listed, Done, DoneUpTo, Reachable;
      if current in visited {
        return;
      }
      Visit(current, segments, walking);
      NothingDone(graph, current, visited, stops);
      var members := graph[current];
      var p := 0;
      while p < |members|
        invariant p <= |members| && Valid() && old(visited) + {current} <= visited
        invariant Done(graph, visited, walking + {current}, stops)
        invariant DoneUpTo(graph, current, p, visited, stops)
        invariant old(stops) <= stops && forall i :: |old(stops)| <= i < |stops| ==> stops[i].owner !in old(visited)
        invariant forall i :: 0 <= i < |stops| && stops[i].owner == current ==> stops[i].position < p
        invariant var whole := WalkMembers(graph, current, 0, prefix, old(visited) + {current});
                  var rest := WalkMembers(graph, current, p, prefix, visited);
                  old(indexes) + whole.0 == indexes + rest.0 && whole.1 == rest.1
      {
        label start:
        WalkStep(graph, current, p, prefix, visited);
        var path := Dot(prefix, members[p].name);
        ghost var further := segments + [members[p].name];
        OneNameFurther(graph, root, segments, current, p);
        if members[p].indexed {
          NotListedYet(stops, current, p);
          Push(path, Stop(further, current, p), walking + {current});
          DoneGrows(graph, current, p, old@start(visited), visited, old@start(stops), stops);
        }
        label pushed:
        if Nested(members[p]).Some? {
          Collect(Nested(members[p]).value, path, further, walking + {current});
          DoneGrows(graph, current, p, old@pushed(visited), visited, old@pushed(stops), stops);
        }
        OneMemberMore(graph, current, p, visited, stops);
        p := p + 1;
      }
      WalkOver(graph, current, prefix, visited);
      WalkEnds(graph, visited, walking, current, stops);
    }
  }

  lemma {:induction false} OneNameFurther(g: TypeGraph, root: TypeId, segments: seq<string>, t: TypeId, p: nat)
    requires Closed(g) && t in g && p < |g[t]| && LeadsTo(g, root, segments, t)
    ensures var further := segments + [g[t][p].name];
            && further != [] && Dotted(further) == Dot(Dotted(segments), g[t][p].name)
            && (g[t][p].indexed ==> IsStop(g, root, Stop(further, t, p)))
            && (Nested(g[t][p]).Some? ==>
               Nested(g[t][p]).value in g && LeadsTo(g, root, further, Nested(g[t][p]).value))
  {
    if Nested(g[t][p]).Some? {
      NestedGoesTo(g[t][p], Nested(g[t][p]).value);
    }
  }

  lemma {:induction false} WalkOver(g: TypeGraph, t: TypeId, prefix: string, visited: set<TypeId>)
    requires Closed(g) && t in g && visited <= g.Keys
    ensures WalkMembers(g, t, |g[t]|, prefix, visited) == ([], visited)
  {
  }

  lemma {:induction false} WalkStep(g: TypeGraph, t: TypeId, p: nat, prefix: string, visited: set<TypeId>)
    requires Closed(g) && t in g && p < |g[t]| && visited <= g.Keys
    requires Nested(g[t][p]).Some? ==> Nested(g[t][p]).value in g
    ensures var path := Dot(prefix, g[t][p].name);
            var own := if g[t][p].indexed then [path] else [];
            var below := if Nested(g[t][p]).Some? then Walk(g, Nested(g[t][p]).value, path, visited) else ([], visited);
            && WalkMembers(g, t, p, prefix, visited).0
               == own + below.0 + WalkMembers(g, t, p + 1, prefix, below.1).0
            && WalkMembers(g, t, p, prefix, visited).1 == WalkMembers(g, t, p + 1, prefix, below.1).1
  {
    hide Walk;
    var m := g[t][p];
    forall u ensures Nested(m) == Some(u) <==> GoesTo(m, u) {
      NestedGoesTo(m, u);
    }
  }

  lemma {:induction false} NotListedYet(stops: seq<Stop>, t: TypeId, p: nat)
    requires forall i :: 0 <= i < |stops| && stops[i].owner == t ==> stops[i].position < p
    ensures !Listed(stops, t, p)
  {
  }

  lemma {:induction false} NothingDone(g: TypeGraph, t: TypeId, visited: set<TypeId>, stops: seq<Stop>)
    requires t in g
    ensures DoneUpTo(g, t, 0, visited, stops)
  {
  }

  lemma {:induction false} OneMemberMore(g: TypeGraph, t: TypeId, p: nat, visited: set<TypeId>, stops: seq<Stop>)
    requires t in g && p < |g[t]| && DoneUpTo(g, t, p, visited, stops)
    requires g[t][p].indexed ==> Listed(stops, t, p)
    requires Nested(g[t][p]).Some? ==> Nested(g[t][p]).value in visited
    ensures DoneUpTo(g, t, p + 1, visited, stops)
  {
  }

  lemma {:induction false} WalkEnds(
    g: TypeGraph, visited: set<TypeId>, walking: set<TypeId>, t: TypeId, stops: seq<Stop>)
    requires Done(g, visited, walking + {t}, stops) && t in g && DoneUpTo(g, t, |g[t]|, visited, stops)
    ensures Done(g, visited, walking, stops)
  {
  }

  lemma {:induction false} DoneGrows(
    g: TypeGraph, t: TypeId, n: nat, visited: set<TypeId>, more: set<TypeId>, earlier: seq<Stop>, later: seq<Stop>)
    requires t in g && n <= |g[t]| && visited <= more && earlier <= later
    requires DoneUpTo(g, t, n, visited, earlier)
    ensures DoneUpTo(g, t, n, more, later)
  {
  }

  lemma {:induction false} StopsGrow(
    g: TypeGraph, visited: set<TypeId>, more: set<TypeId>, walking: set<TypeId>, earlier: seq<Stop>, later: seq<Stop>)
    requires visited == more && earlier <= later && Done(g, visited, walking, earlier)
    ensures Done(g, more, walking, later)
  {
  }

  /** A set of types that holds the root and every type its members lead to holds every reachable type. */
  lemma {:induction false} ClosedHoldsReachable(
    g: TypeGraph, root: TypeId, visited: set<TypeId>, stops: seq<Stop>, segments: seq<string>, t: TypeId)
    requires root in visited && Done(g, visited, {}, stops) && LeadsTo(g, root, segments, t)
    ensures t in visited
    decreases |segments|
  {
    if segments != [] {
      var u, p :| u in g && 0 <= p < |g[u]| && GoesTo(g[u][p], t)
                  && LeadsTo(g, root, segments[..|segments| - 1], u);
      ClosedHoldsReachable(g, root, visited, stops, segments[..|segments| - 1], u);
      assert DoneUpTo(g, u, |g[u]|, visited, stops);
      NestedGoesTo(g[u][p], t);
    }
  }

  /**
   * Each marked member of each reachable type has one path, each path leads to such a member, each reachable type is
   * expanded once.
   */
  ghost predicate CollectsExactly(
    g: TypeGraph, root: TypeId, expanded: seq<TypeId>, indexes: seq<string>, stops: seq<Stop>)
  {
    && Sound(g, root, expanded, indexes, stops) && Once(expanded, stops)
    && (forall t :: t in expanded <==> Reachable(g, root, t))
    && (forall t, p :: t in g && Reachable(g, root, t) && 0 <= p < |g[t]| && g[t][p].indexed ==> Listed(stops, t, p))
  }

  method GetIndexesForType(g: TypeGraph, root: TypeId) returns (indexes: seq<string>)
    requires Closed(g) && root in g
    ensures exists expanded, stops :: CollectsExactly(g, root, expanded, indexes, stops)
    ensures indexes == Walk(g, root, "", {}).0
  {
    var collector := new Collector(g, root);
    collector.Collect(root, "", [], {});
    indexes := collector.indexes;
    ghost var visited, stops := collector.visited, collector.stops;
    forall t | Reachable(g, root, t) ensures t in visited {
      var segments :| LeadsTo(g, root, segments, t);
      ClosedHoldsReachable(g, root, visited, stops, segments, t);
    }
    assert forall t :: t in visited ==> DoneUpTo(g, t, |g[t]|, visited, stops);
    assert CollectsExactly(g, root, collector.expanded, indexes, stops);
  }

  ghost predicate PlainNames(g: TypeGraph) {
    forall t, p :: t in g && 0 <= p < |g[t]| ==> g[t][p].name != "" && Lacks(g[t][p].name, '.')
  }

  lemma {:induction false} LeadsByNames(g: TypeGraph, root: TypeId, segments: seq<string>, t: TypeId)
    requires PlainNames(g) && LeadsTo(g, root, segments, t)
    ensures forall i :: 0 <= i < |segments| ==> segments[i] != "" && Lacks(segments[i], '.')
    decreases |segments|
  {
    if segments != [] {
      var last := |segments| - 1;
      var u, p :| u in g && 0 <= p < |g[u]| && g[u][p].name == segments[last] && LeadsTo(g, root, segments[..last], u);
      LeadsByNames(g, root, segments[..last], u);
      assert forall i :: 0 <= i < last ==> segments[i] == segments[..last][i];
    }
  }

  lemma {:induction false} JoinLast(pieces: seq<string>, last: string, c: char)
    ensures Join(pieces + [last], c) == if pieces == [] then last else Join(pieces, c) + [c] + last
  {
    if |pieces| > 1 {
      JoinLast(pieces[1..], last, c);
      assert (pieces + [last])[1..] == pieces[1..] + [last];
    }
  }

  lemma {:induction false} DottedIsJoin(segments: seq<string>)
    requires forall i :: 0 <= i < |segments| ==> segments[i] != ""
    ensures Dotted(segments) == Join(segments, '.')
    ensures segments != [] ==> Dotted(segments) != ""
  {
    if segments != [] {
      var last := |segments| - 1;
      DottedIsJoin(segments[..last]);
      JoinLast(segments[..last], segments[last], '.');
      assert segments == segments[..last] + [segments[last]];
    }
  }

  /**
   * When no name is empty or has a dot, splitting a listed path at its dots gives the names that lead to its member.
   */
  lemma {:induction false} PathNamesTheWay(g: TypeGraph, root: TypeId, stop: Stop)
    requires PlainNames(g) && IsStop(g, root, stop)
    ensures Split(Dotted(stop.segments), '.') == stop.segments
  {
    var last := |stop.segments| - 1;
    LeadsByNames(g, root, stop.segments[..last], stop.owner);
    assert forall i :: 0 <= i < last ==> stop.segments[i] == stop.segments[..last][i];
    DottedIsJoin(stop.segments);
    SplitOfJoin(stop.segments, '.');
  }

  ghost predicate UniqueMembers(g: TypeGraph) {
    forall t, p, q :: t in g && 0 <= p < q < |g[t]| ==> g[t][p].name != g[t][q].name
  }

  lemma {:induction false} WayDetermines(g: TypeGraph, root: TypeId, segments: seq<string>, t: TypeId, u: TypeId)
    requires UniqueMembers(g) && LeadsTo(g, root, segments, t) && LeadsTo(g, root, segments, u)
    ensures t == u
    decreases |segments|
  {
    if segments != [] {
      var last := |segments| - 1;
      var v, p :| v in g && 0 <= p < |g[v]| && g[v][p].name == segments[last] && GoesTo(g[v][p], t)
                  && LeadsTo(g, root, segments[..last], v);
      var w, q :| w in g && 0 <= q < |g[w]| && g[w][q].name == segments[last] && GoesTo(g[w][q], u)
                  && LeadsTo(g, root, segments[..last], w);
      WayDetermines(g, root, segments[..last], v, w);
      NestedGoesTo(g[v][p], t);
      NestedGoesTo(g[w][q], u);
    }
  }

  lemma {:induction false} SameWaySameMember(g: TypeGraph, root: TypeId, a: Stop, b: Stop)
    requires UniqueMembers(g) && IsStop(g, root, a) && IsStop(g, root, b) && a.segments == b.segments
    ensures a.owner == b.owner && a.position == b.position
  {
    WayDetermines(g, root, a.segments[..|a.segments| - 1], a.owner, b.owner);
  }

  /** When, besides, the members of each type have different names, the listed paths are all different. */
  lemma {:induction false} PathsDiffer(
    g: TypeGraph, root: TypeId, expanded: seq<TypeId>, indexes: seq<string>, stops: seq<Stop>, i: nat, j: nat)
    requires PlainNames(g) && UniqueMembers(g) && CollectsExactly(g, root, expanded, indexes, stops)
             && i < j < |indexes|
    ensures indexes[i] != indexes[j]
  {
    PathNamesTheWay(g, root, stops[i]);
    PathNamesTheWay(g, root, stops[j]);
    if stops[i].segments == stops[j].segments {
      SameWaySameMember(g, root, stops[i], stops[j]);
    }
  }
}
