/** Mutual exclusion: at most one variant of a lowered and cross-wired group is active, over every run and every key. */
module VariantExclusion {
  import opened Wrappers
  import opened OrderedMaps
  import opened VariantReclassifier
  import opened VariantSemantics

  /** No event type enters two variants. */
  ghost predicate DisjointEntrances(entering: seq<set<ContractEventType>>) {
    forall i, j, t :: 0 <= i < |entering| && 0 <= j < |entering| && i != j && t in entering[i] ==> t !in entering[j]
  }

  /** What makes a group of wired variants exclusive: disjoint entrances matter only when removals act first. */
  ghost predicate ExclusiveGroup(group: seq<Definition>, entering: seq<set<ContractEventType>>, removalFirst: bool) {
    && |entering| == |group|
    && (forall i, r :: 0 <= i < |group| && r in group[i].from ==> r.key in entering[i] && KeyedOnSource(r.value.key))
    && (removalFirst ==> DisjointEntrances(entering))
    && (forall i, j, t :: 0 <= i < |group| && 0 <= j < |group| && i != j && t in entering[j] ==>
       RemovedOnSource(group[i], t))
  }

  ghost predicate RemovedOnSource(d: Definition, t: ContractEventType) {
    exists q :: q in d.removedWith && q.key == t && KeyedOnSource(q.value.key)
  }

  /** Over every run and on every key no two variants are active, when removals act in the given order. */
  ghost predicate Exclusive(group: seq<Definition>, removalFirst: bool) {
    forall evaluate, k, events, i, j :: 0 <= i < |group| && 0 <= j < |group| && i != j ==>
      !(BothActive(evaluate, removalFirst, group[i], group[j], k, events))
  }

  ghost predicate BothActive(
    evaluate: Evaluate, removalFirst: bool, a: Definition, b: Definition, k: string, events: seq<Event>)
  {
    Fold(evaluate, removalFirst, a, k, events).Some? && Fold(evaluate, removalFirst, b, k, events).Some?
  }

  /**
   * A variant becomes active only by an event that enters it on the key, and one that enters a sibling leaves it
   * inactive.
   */
  lemma {:induction false} VariantStep(
    evaluate: Evaluate, removalFirst: bool, group: seq<Definition>, entering: seq<set<ContractEventType>>, i: nat,
    k: string, e: Event, current: Option<Instance>)
    requires ExclusiveGroup(group, entering, removalFirst) && i < |group|
    ensures var after := Step(evaluate, removalFirst, group[i], k, e, current);
            && (after.Some? ==> current.Some? || (e.eventType in entering[i] && e.source == k))
            && (forall j :: 0 <= j < |group| && j != i && e.eventType in entering[j] && e.source == k ==> after.None?)
  {
    hide FromStep, JoinsStep;
    var d := group[i];
    FromActs(evaluate, d.from, k, e, current);
    FromActs(evaluate, d.from, k, e, None);
    JoinsKeepActivity(evaluate, d.variantKey, d.join, k, e, FromStep(evaluate, d.from, k, e, current));
    JoinsKeepActivity(evaluate, d.variantKey, d.join, k, e, FromStep(evaluate, d.from, k, e, None));
    forall j | 0 <= j < |group| && j != i && e.eventType in entering[j] && e.source == k
      ensures Step(evaluate, removalFirst, d, k, e, current).None?
    {
      assert RemovedOnSource(d, e.eventType);
      assert Removes(evaluate, d.removedWith, k, e);
    }
  }

  /** Mutual exclusion over every run and every key: no two variants of a group are active. */
  lemma {:induction false} AtMostOneVariantIsActive(
    evaluate: Evaluate, removalFirst: bool, group: seq<Definition>, entering: seq<set<ContractEventType>>, k: string,
    events: seq<Event>, i: nat, j: nat)
    requires ExclusiveGroup(group, entering, removalFirst) && i < |group| && j < |group| && i != j
    ensures !BothActive(evaluate, removalFirst, group[i], group[j], k, events)
  {
    hide Step, ExclusiveGroup;
    if events != [] {
      var rest, e := events[..|events| - 1], events[|events| - 1];
      AtMostOneVariantIsActive(evaluate, removalFirst, group, entering, k, rest, i, j);
      VariantStep(evaluate, removalFirst, group, entering, i, k, e, Fold(evaluate, removalFirst, group[i], k, rest));
      VariantStep(evaluate, removalFirst, group, entering, j, k, e, Fold(evaluate, removalFirst, group[j], k, rest));
    }
  }

  // ----- compiled groups -----

  /** The wired and lowered definition of the i-th variant. */
  function Compiled(
    definitions: seq<Definition>, variants: seq<Option<VariantDeclaration>>, entering: seq<set<ContractEventType>>,
    i: nat): Definition
    requires |definitions| == |variants| == |entering| && i < |variants|
  {
    Lower(definitions[i], entering[i]).(removedWith := WiredRemovals(variants, i, definitions[i].removedWith))
  }

  function CompiledGroup(
    definitions: seq<Definition>, variants: seq<Option<VariantDeclaration>>,
    entering: seq<set<ContractEventType>>): seq<Definition>
    requires |definitions| == |variants| == |entering|
  {
    seq(|variants|, i requires 0 <= i < |variants| => Compiled(definitions, variants, entering, i))
  }

  /** One group of siblings, whose entering records are keyed on the event source. */
  ghost predicate IsGroup(
    definitions: seq<Definition>, variants: seq<Option<VariantDeclaration>>, entering: seq<set<ContractEventType>>)
  {
    && |definitions| == |variants| == |entering|
    && (forall i, j :: 0 <= i < |variants| && 0 <= j < |variants| && i != j ==> AreSiblings(variants, i, j))
    && (forall i :: 0 <= i < |variants| ==>
       variants[i].Some? && entering[i] == set t | t in variants[i].value.enteringEventTypes)
    && (forall i, r :: 0 <= i < |variants| && r in definitions[i].from && r.key in entering[i] ==>
       KeyedOnSource(r.value.key))
  }

  /** The removal a variant keeps for an event type: the last one it declared. */
  function Kept(d: Definition, t: ContractEventType): Option<RemovedWithValue> {
    Get(RemovedByEventType(d.removedWith), t)
  }

  /** No variant keeps a removal for what enters a sibling that is keyed elsewhere than on the event source. */
  ghost predicate KeptOnSource(definitions: seq<Definition>, entering: seq<set<ContractEventType>>)
    requires |definitions| == |entering|
  {
    forall i, j, t :: 0 <= i < |definitions| && 0 <= j < |definitions| && i != j && t in entering[j]
                      && Kept(definitions[i], t).Some? ==>
      KeyedOnSource(Kept(definitions[i], t).value.key)
  }

  /**
   * Every variant can be entered: it has entering types, each with a record, and declares no removal for any of them.
   */
  ghost predicate Enterable(definitions: seq<Definition>, entering: seq<set<ContractEventType>>)
    requires |definitions| == |entering|
  {
    forall i :: 0 <= i < |definitions| ==>
      && entering[i] != {}
      && forall t :: t in entering[i] ==>
         HasRecord(definitions[i], t) && forall q :: q in definitions[i].removedWith ==> q.key != t
  }

  ghost predicate HasRecord(d: Definition, t: ContractEventType) {
    exists r :: r in d.from && r.key == t
  }

  /** What a sibling's entering type removes of a compiled variant: by the kept removal, or else on the event source. */
  lemma {:induction false} WiredRemoval(
    definitions: seq<Definition>, variants: seq<Option<VariantDeclaration>>, entering: seq<set<ContractEventType>>,
    i: nat, j: nat, t: ContractEventType)
    requires IsGroup(definitions, variants, entering) && i < |variants| && j < |variants| && i != j && t in entering[j]
    ensures var removedWith := Compiled(definitions, variants, entering, i).removedWith;
            var value := Kept(definitions[i], t).GetOr(REMOVED_ON_SOURCE);
            Entry(t, value) in removedWith && forall q :: q in removedWith && q.key == t ==> q.value == value
  {
    var removedWith := WiredRemovals(variants, i, definitions[i].removedWith);
    assert AreSiblings(variants, i, j) && t in variants[j].value.enteringEventTypes;
    WiredRemovalOf(variants, i, definitions[i].removedWith, t);
    WiredIsUnique(variants, i, definitions[i].removedWith);
    GetFinds(removedWith, t);
  }

  lemma {:induction false} WiredIsUnique(
    variants: seq<Option<VariantDeclaration>>, i: nat, existing: seq<RemovedWithRecord>)
    requires i < |variants| && HasSiblings(variants, i)
    ensures UniqueKeys(WiredRemovals(variants, i, existing))
  {
    RemovedByEventTypeIsUnique(existing);
    AddedRemovals(RemovedByEventType(existing), SiblingsEntering(variants, i, |variants|),
      ContractEventType("", 0, false));
  }

  /**
   * The compiled group is exclusive when no kept removal is keyed elsewhere and, if removals act first, no event type
   * enters two variants.
   */
  lemma {:induction false} CompiledGroupIsExclusive(
    definitions: seq<Definition>, variants: seq<Option<VariantDeclaration>>, entering: seq<set<ContractEventType>>,
    removalFirst: bool)
    requires IsGroup(definitions, variants, entering) && KeptOnSource(definitions, entering)
    requires removalFirst ==> DisjointEntrances(entering)
    ensures ExclusiveGroup(CompiledGroup(definitions, variants, entering), entering, removalFirst)
    ensures Exclusive(CompiledGroup(definitions, variants, entering), removalFirst)
  {
    hide WiredRemovals, Kept, Fold, DisjointEntrances;
    var group := CompiledGroup(definitions, variants, entering);
    forall i, r | 0 <= i < |group| && r in group[i].from ensures r.key in entering[i] && KeyedOnSource(r.value.key) {
      EnteringMembers(definitions[i].from, entering[i]);
    }
    forall i, j, t | 0 <= i < |group| && 0 <= j < |group| && i != j && t in entering[j]
      ensures RemovedOnSource(group[i], t)
    {
      WiredRemoval(definitions, variants, entering, i, j, t);
    }
    forall evaluate, k, events, i, j | 0 <= i < |group| && 0 <= j < |group| && i != j
      ensures !BothActive(evaluate, removalFirst, group[i], group[j], k, events)
    {
      AtMostOneVariantIsActive(evaluate, removalFirst, group, entering, k, events, i, j);
    }
  }

  /** An event whose type has a record for the key, and that does not remove, leaves a variant active. */
  lemma {:induction false} EventEnters(
    evaluate: Evaluate, removalFirst: bool, d: Definition, k: string, e: Event, r: FromRecord,
    current: Option<Instance>)
    requires r in d.from && r.key == e.eventType && KeyOf(evaluate, r.value.key, e) == k
             && !Removes(evaluate, d.removedWith, k, e)
    ensures Step(evaluate, removalFirst, d, k, e, current).Some?
  {
    FromActs(evaluate, d.from, k, e, current);
    FromActs(evaluate, d.from, k, e, None);
    JoinsKeepActivity(evaluate, d.variantKey, d.join, k, e, FromStep(evaluate, d.from, k, e, current));
  }

  /** An event that does not remove leaves an active variant active. */
  lemma {:induction false} EventKeeps(
    evaluate: Evaluate, removalFirst: bool, d: Definition, k: string, e: Event, current: Option<Instance>)
    requires current.Some? && !Removes(evaluate, d.removedWith, k, e)
    ensures Step(evaluate, removalFirst, d, k, e, current).Some?
  {
    FromActs(evaluate, d.from, k, e, current);
    JoinsKeepActivity(evaluate, d.variantKey, d.join, k, e, FromStep(evaluate, d.from, k, e, current));
  }

  lemma {:induction false} TwoEvents(
    evaluate: Evaluate, removalFirst: bool, d: Definition, k: string, a: Event, b: Event)
    ensures Fold(evaluate, removalFirst, d, k, [a, b])
            == Step(evaluate, removalFirst, d, k, b, Step(evaluate, removalFirst, d, k, a, None))
  {
    hide Step;
    assert [a, b][..1] == [a] && [a][..0] == [];
    assert Fold(evaluate, removalFirst, d, k, []) == None;
    assert Fold(evaluate, removalFirst, d, k, [a]) == Step(evaluate, removalFirst, d, k, a, None);
  }

  /**
   * Two events that each let a variant in on the same key, where neither removes and the second spares the first
   * variant.
   */
  lemma {:induction false} UnremovedSiblingStaysActive(
    evaluate: Evaluate, removalFirst: bool, first: Definition, second: Definition, k: string, a: Event, b: Event,
    r: FromRecord, q: FromRecord)
    requires r in first.from && r.key == a.eventType && KeyOf(evaluate, r.value.key, a) == k
    requires q in second.from && q.key == b.eventType && KeyOf(evaluate, q.value.key, b) == k
    requires !Removes(evaluate, first.removedWith, k, a) && !Removes(evaluate, second.removedWith, k, b)
    requires !Removes(evaluate, first.removedWith, k, b)
    ensures BothActive(evaluate, removalFirst, first, second, k, [a, b])
  {
    hide Step, Fold, Removes;
    EventEnters(evaluate, removalFirst, first, k, a, r, None);
    EventKeeps(evaluate, removalFirst, first, k, b, Step(evaluate, removalFirst, first, k, a, None));
    EventEnters(evaluate, removalFirst, second, k, b, q, Step(evaluate, removalFirst, second, k, a, None));
    TwoEvents(evaluate, removalFirst, first, k, a, b);
    TwoEvents(evaluate, removalFirst, second, k, a, b);
  }

  /** A compiled variant is not removed by what enters it alone. */
  lemma {:induction false} OwnEntranceRemovesNot(
    definitions: seq<Definition>, variants: seq<Option<VariantDeclaration>>, entering: seq<set<ContractEventType>>,
    i: nat, t: ContractEventType)
    requires IsGroup(definitions, variants, entering) && Enterable(definitions, entering) && i < |variants|
             && t in entering[i] && DisjointEntrances(entering)
    ensures forall q :: q in Compiled(definitions, variants, entering, i).removedWith ==> q.key != t
  {
    UnsharedIsNotWired(definitions, variants, entering, i, t);
  }

  lemma {:induction false} KeptIsDeclared(removedWith: seq<RemovedWithRecord>, t: ContractEventType)
    ensures Get(RemovedByEventType(removedWith), t).Some? ==>
            Entry(t, Get(RemovedByEventType(removedWith), t).value) in removedWith
  {
    if removedWith != [] {
      var rest, last := removedWith[..|removedWith| - 1], removedWith[|removedWith| - 1];
      KeptIsDeclared(rest, t);
      GetAfterPut(RemovedByEventType(rest), last.key, last.value, t);
      assert removedWith == rest + [last];
    }
  }

  /**
   * A kept removal that is keyed elsewhere breaks exclusion: an event enters the variant that keeps it, a second one
   * enters the sibling on the same key without matching that removal, and both are active.
   */
  lemma {:induction false} RemovalKeyedElsewhereBreaksExclusion(
    definitions: seq<Definition>, variants: seq<Option<VariantDeclaration>>, entering: seq<set<ContractEventType>>,
    removalFirst: bool, i: nat, j: nat, t: ContractEventType)
    requires IsGroup(definitions, variants, entering) && Enterable(definitions, entering)
             && DisjointEntrances(entering)
    requires i < |variants| && j < |variants| && i != j && t in entering[j]
    requires Kept(definitions[i], t).Some? && !KeyedOnSource(Kept(definitions[i], t).value.key)
    ensures !Exclusive(CompiledGroup(definitions, variants, entering), removalFirst)
  {
    hide IsGroup, Enterable, Compiled, Kept, Step, Fold, Removes, DisjointEntrances;
    SameSizes(definitions, variants, entering);
    var one, other := Compiled(definitions, variants, entering, i), Compiled(definitions, variants, entering, j);
    var evaluate: Evaluate := (x, e, previous) => "elsewhere";
    var s, r := SomeEntrance(definitions, variants, entering, i);
    var q := EntranceBy(definitions, variants, entering, j, t);
    OwnEntranceRemovesNot(definitions, variants, entering, i, s);
    OwnEntranceRemovesNot(definitions, variants, entering, j, t);
    var k := "k";
    var a, b := Event(s, k, map[]), Event(t, k, map[]);
    NotRemovedOn(evaluate, one, k, a);
    NotRemovedOn(evaluate, other, k, b);
    NotRemovedElsewhere(definitions, variants, entering, i, j, b, evaluate);
    UnremovedSiblingStaysActive(evaluate, removalFirst, one, other, k, a, b, r, q);
    var group := CompiledGroup(definitions, variants, entering);
    assert group[i] == one && group[j] == other;
    assert BothActive(evaluate, removalFirst, group[i], group[j], k, [a, b]);
  }

  /** A record that lets an entering event type into a compiled variant. */
  lemma {:induction false} EntranceBy(
    definitions: seq<Definition>, variants: seq<Option<VariantDeclaration>>, entering: seq<set<ContractEventType>>,
    i: nat, t: ContractEventType)
    returns (r: FromRecord)
    requires IsGroup(definitions, variants, entering) && Enterable(definitions, entering) && i < |variants|
             && t in entering[i]
    ensures r in Compiled(definitions, variants, entering, i).from && r.key == t && KeyedOnSource(r.value.key)
  {
    EnteringMembers(definitions[i].from, entering[i]);
    assert HasRecord(definitions[i], t);
    r :| r in definitions[i].from && r.key == t;
  }

  lemma {:induction false} EveryVariantEnters(
    definitions: seq<Definition>, entering: seq<set<ContractEventType>>, i: nat)
    requires |definitions| == |entering| && Enterable(definitions, entering) && i < |definitions|
    ensures entering[i] != {}
  {
  }

  lemma {:induction false} SomeEntrance(
    definitions: seq<Definition>, variants: seq<Option<VariantDeclaration>>, entering: seq<set<ContractEventType>>,
    i: nat)
    returns (t: ContractEventType, r: FromRecord)
    requires IsGroup(definitions, variants, entering) && Enterable(definitions, entering) && i < |variants|
    ensures t in entering[i] && r in Compiled(definitions, variants, entering, i).from && r.key == t
            && KeyedOnSource(r.value.key)
  {
    EveryVariantEnters(definitions, entering, i);
    t :| t in entering[i];
    r := EntranceBy(definitions, variants, entering, i, t);
  }

  lemma {:induction false} NotRemovedOn(evaluate: Evaluate, d: Definition, k: string, e: Event)
    requires forall q :: q in d.removedWith ==> q.key != e.eventType
    ensures !Removes(evaluate, d.removedWith, k, e)
  {
  }

  lemma {:induction false} NotRemovedElsewhere(
    definitions: seq<Definition>, variants: seq<Option<VariantDeclaration>>, entering: seq<set<ContractEventType>>,
    i: nat, j: nat, e: Event, evaluate: Evaluate)
    requires IsGroup(definitions, variants, entering)
    requires i < |variants| && j < |variants| && i != j && e.eventType in entering[j]
    requires Kept(definitions[i], e.eventType).Some? && !KeyedOnSource(Kept(definitions[i], e.eventType).value.key)
    requires evaluate(Kept(definitions[i], e.eventType).value.key, e, None) != e.source
    ensures !Removes(evaluate, Compiled(definitions, variants, entering, i).removedWith, e.source, e)
  {
    hide Kept, Compiled;
    WiredRemoval(definitions, variants, entering, i, j, e.eventType);
    var kept := Kept(definitions[i], e.eventType).value;
    assert KeyOf(evaluate, kept.key, e) != e.source;
  }

  // ----- shared entrances -----

  /**
   * A variant that declares no removal for an event type that enters it is wired against that entrance exactly when the
   * type enters a sibling too.
   */
  lemma {:induction false} WiredAgainstItsOwnEntrance(
    definitions: seq<Definition>, variants: seq<Option<VariantDeclaration>>, entering: seq<set<ContractEventType>>,
    i: nat, t: ContractEventType)
    requires IsGroup(definitions, variants, entering) && Enterable(definitions, entering) && i < |variants|
             && t in entering[i]
    ensures (exists q :: q in Compiled(definitions, variants, entering, i).removedWith && q.key == t)
       <==> exists j :: 0 <= j < |variants| && j != i && t in entering[j]
    ensures forall q :: q in Compiled(definitions, variants, entering, i).removedWith && q.key == t ==>
              q.value == REMOVED_ON_SOURCE
  {
    hide WiredRemovals, Get, RemovedByEventType;
    NothingKept(definitions, entering, i, t);
    forall j | 0 <= j < |variants| && j != i && t in entering[j]
      ensures Entry(t, REMOVED_ON_SOURCE) in Compiled(definitions, variants, entering, i).removedWith
      ensures forall q :: q in Compiled(definitions, variants, entering, i).removedWith && q.key == t ==>
                q.value == REMOVED_ON_SOURCE
    {
      WiredRemoval(definitions, variants, entering, i, j, t);
    }
    if forall j :: 0 <= j < |variants| && j != i ==> t !in entering[j] {
      UnsharedIsNotWired(definitions, variants, entering, i, t);
    }
  }

  lemma {:induction false} NothingKept(
    definitions: seq<Definition>, entering: seq<set<ContractEventType>>, i: nat, t: ContractEventType)
    requires |definitions| == |entering| && Enterable(definitions, entering) && i < |definitions| && t in entering[i]
    ensures Kept(definitions[i], t).None?
  {
    KeptIsDeclared(definitions[i].removedWith, t);
  }

  lemma {:induction false} UnsharedIsNotWired(
    definitions: seq<Definition>, variants: seq<Option<VariantDeclaration>>, entering: seq<set<ContractEventType>>,
    i: nat, t: ContractEventType)
    requires IsGroup(definitions, variants, entering) && Enterable(definitions, entering) && i < |variants|
             && t in entering[i]
    requires forall j :: 0 <= j < |variants| && j != i ==> t !in entering[j]
    ensures forall q :: q in Compiled(definitions, variants, entering, i).removedWith ==> q.key != t
  {
    var existing := definitions[i].removedWith;
    var removedWith := WiredRemovals(variants, i, existing);
    WiredRemovalOf(variants, i, existing, t);
    KeptIsDeclared(existing, t);
    GetFinds(existing, t);
    forall j | 0 <= j < |variants| && AreSiblings(variants, i, j) ensures t !in variants[j].value.enteringEventTypes {
      assert entering[j] == set x | x in variants[j].value.enteringEventTypes;
    }
    GetFinds(removedWith, t);
  }

  /**
   * What an event that enters two variants on a key leaves of either, whatever it was before: both are active when
   * removals act first, and neither is when they act last.
   */
  lemma {:induction false} SharedEntrance(
    definitions: seq<Definition>, variants: seq<Option<VariantDeclaration>>, entering: seq<set<ContractEventType>>,
    i: nat, j: nat, evaluate: Evaluate, removalFirst: bool, e: Event, current: Option<Instance>)
    requires IsGroup(definitions, variants, entering) && Enterable(definitions, entering)
    requires i < |variants| && j < |variants| && i != j && e.eventType in entering[i] && e.eventType in entering[j]
    ensures Step(evaluate, removalFirst, Compiled(definitions, variants, entering, i), e.source, e, current).Some?
       <==> removalFirst
  {
    hide Compiled, FromStep, JoinsStep, IsGroup, Enterable;
    SameSizes(definitions, variants, entering);
    var d := Compiled(definitions, variants, entering, i);
    WiredAgainstItsOwnEntrance(definitions, variants, entering, i, e.eventType);
    var q :| q in d.removedWith && q.key == e.eventType;
    assert KeyOf(evaluate, q.value.key, e) == e.source;
    assert Removes(evaluate, d.removedWith, e.source, e);
    var r := EntranceBy(definitions, variants, entering, i, e.eventType);
    assert KeyOf(evaluate, r.value.key, e) == e.source;
    FromActs(evaluate, d.from, e.source, e, None);
    JoinsKeepActivity(evaluate, d.variantKey, d.join, e.source, e, FromStep(evaluate, d.from, e.source, e, None));
  }

  lemma {:induction false} SharedEntranceBreaksExclusion(
    definitions: seq<Definition>, variants: seq<Option<VariantDeclaration>>, entering: seq<set<ContractEventType>>)
    requires IsGroup(definitions, variants, entering) && Enterable(definitions, entering)
    requires !DisjointEntrances(entering)
    ensures !Exclusive(CompiledGroup(definitions, variants, entering), true)
  {
    hide IsGroup, Enterable, Compiled, Step;
    SameSizes(definitions, variants, entering);
    var i, j, t :| 0 <= i < |entering| && 0 <= j < |entering| && i != j && t in entering[i] && t in entering[j];
    var evaluate: Evaluate := (x, e, previous) => "";
    var e := Event(t, "k", map[]);
    SharedEntrance(definitions, variants, entering, i, j, evaluate, true, e, None);
    SharedEntrance(definitions, variants, entering, j, i, evaluate, true, e, None);
    var group := CompiledGroup(definitions, variants, entering);
    OneEvent(evaluate, true, group[i], "k", e);
    OneEvent(evaluate, true, group[j], "k", e);
    assert BothActive(evaluate, true, group[i], group[j], "k", [e]);
  }

  lemma {:induction false} OneEvent(evaluate: Evaluate, removalFirst: bool, d: Definition, k: string, e: Event)
    ensures Fold(evaluate, removalFirst, d, k, [e]) == Step(evaluate, removalFirst, d, k, e, None)
  {
    assert [e][..0] == [];
  }

  // ----- the exact conditions -----

  /**
   * When removals act first, the compiled group is exclusive over every run exactly when no kept removal is keyed
   * elsewhere and no event type enters two variants. When they act last, shared entrances do no harm, and among
   * disjoint ones it is exclusive exactly when no kept removal is keyed elsewhere.
   */
  lemma {:induction false} ExclusiveExactly(
    definitions: seq<Definition>, variants: seq<Option<VariantDeclaration>>, entering: seq<set<ContractEventType>>)
    requires IsGroup(definitions, variants, entering) && Enterable(definitions, entering)
    ensures Exclusive(CompiledGroup(definitions, variants, entering), true)
       <==> KeptOnSource(definitions, entering) && DisjointEntrances(entering)
    ensures KeptOnSource(definitions, entering) ==> Exclusive(CompiledGroup(definitions, variants, entering), false)
    ensures DisjointEntrances(entering) ==>
              (Exclusive(CompiledGroup(definitions, variants, entering), false) <==>
                KeptOnSource(definitions, entering))
  {
    hide Exclusive, IsGroup, Enterable, Kept, CompiledGroup, DisjointEntrances;
    SameSizes(definitions, variants, entering);
    if KeptOnSource(definitions, entering) {
      CompiledGroupIsExclusive(definitions, variants, entering, false);
    } else if DisjointEntrances(entering) {
      var i, j, t :| 0 <= i < |definitions| && 0 <= j < |definitions| && i != j && t in entering[j]
                     && Kept(definitions[i], t).Some? && !KeyedOnSource(Kept(definitions[i], t).value.key);
      RemovalKeyedElsewhereBreaksExclusion(definitions, variants, entering, true, i, j, t);
      RemovalKeyedElsewhereBreaksExclusion(definitions, variants, entering, false, i, j, t);
    }
    if !DisjointEntrances(entering) {
      SharedEntranceBreaksExclusion(definitions, variants, entering);
    } else if KeptOnSource(definitions, entering) {
      CompiledGroupIsExclusive(definitions, variants, entering, true);
    }
  }

  lemma {:induction false} SameSizes(
    definitions: seq<Definition>, variants: seq<Option<VariantDeclaration>>, entering: seq<set<ContractEventType>>)
    requires IsGroup(definitions, variants, entering)
    ensures |definitions| == |variants| == |entering|
  {
  }
}
