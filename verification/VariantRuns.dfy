/**
 * Lowering over whole runs: a lowered variant follows its original records while it is active, and only entering
 * events enter it. For variants that an event can set up, that holds exactly when it is safe to lower them.
 */
module VariantRuns {
  import opened Wrappers
  import opened VariantReclassifier
  import opened VariantSemantics
  import opened VariantExactness

  /** The original records, let through while the variant is active and on entering events. */
  ghost function Gated(
    evaluate: Evaluate, removalFirst: bool, d: Definition, entering: set<ContractEventType>, k: string,
    events: seq<Event>): Option<Instance>
  {
    if events == [] then None
    else
      var before, e := Gated(evaluate, removalFirst, d, entering, k, events[..|events| - 1]), events[|events| - 1];
      if before.Some? || e.eventType in entering then Step(evaluate, removalFirst, d, k, e, before) else None
  }

  ghost predicate RunsPreserved(d: Definition, entering: set<ContractEventType>, removalFirst: bool) {
    forall evaluate: Evaluate, k, events ::
      Fold(evaluate, removalFirst, Lower(d, entering), k, events)
        == Gated(evaluate, removalFirst, d, entering, k, events)
  }

  /** Safe lowering: the lowered records are the gated original ones, over every run. */
  lemma {:induction false} LoweringGates(
    evaluate: Evaluate, removalFirst: bool, d: Definition, entering: set<ContractEventType>, k: string,
    events: seq<Event>)
    requires SafeToLower(d, entering, removalFirst)
    ensures Fold(evaluate, removalFirst, Lower(d, entering), k, events)
         == Gated(evaluate, removalFirst, d, entering, k, events)
  {
    hide Step, Lower, SafeToLower;
    if events != [] {
      var rest := events[..|events| - 1];
      LoweringGates(evaluate, removalFirst, d, entering, k, rest);
      LoweredStep(evaluate, removalFirst, d, entering, k, events[|events| - 1],
                  Fold(evaluate, removalFirst, Lower(d, entering), k, rest));
    }
  }

  // ----- setting an instance up -----

  /**
   * A record by which one event sets a variant up in any state: it enters the variant on the event source, sets every
   * property the definition speaks of, each by an expression of its own, and nothing else acts on its event type.
   */
  ghost predicate SetsUp(d: Definition, entering: set<ContractEventType>, r: FromRecord) {
    && r in d.from && r.key in entering && KeyedOnSource(r.value.key)
    && Mentioned(d) <= r.value.properties.Keys
    && (forall p, q :: p in r.value.properties && q in r.value.properties && p != q ==>
          r.value.properties[p] != r.value.properties[q])
    && (forall s :: s in d.from && s.key == r.key ==> s == r)
    && (forall j :: j in d.join ==> j.key != r.key)
    && (forall q :: q in d.removedWith ==> q.key != r.key)
  }

  /** The value an expression has to have for a record to set its property as in the instance. */
  ghost function ValueOf(properties: map<string, string>, instance: Instance, x: string): string
    requires properties.Keys <= instance.Keys
  {
    if p :| p in properties && properties[p] == x then instance[p] else ""
  }

  /** Evaluates events of one type to the instance, and all others as given. */
  ghost function SettingUp(r: FromRecord, instance: Instance, evaluate: Evaluate): Evaluate
    requires r.value.properties.Keys <= instance.Keys
  {
    (x: string, e: Event, previous: Option<string>) =>
      if e.eventType == r.key then ValueOf(r.value.properties, instance, x) else evaluate(x, e, previous)
  }

  lemma {:induction false} EntersOnSource(
    d: Definition, entering: set<ContractEventType>, r: FromRecord, evaluate: Evaluate, e: Event)
    requires SetsUp(d, entering, r)
    ensures KeyOf(evaluate, r.value.key, e) == e.source
  {
  }

  lemma {:induction false} SetsTheInstance(
    d: Definition, entering: set<ContractEventType>, r: FromRecord, instance: Instance, evaluate: Evaluate, e: Event,
    current: Option<Instance>)
    requires SetsUp(d, entering, r) && r.value.properties.Keys == instance.Keys && e.eventType == r.key
    requires current == None || current == Some(instance)
    ensures RecordStep(SettingUp(r, instance, evaluate), r, e.source, e, current) == Some(instance)
  {
    hide ApplyProperties, KeyOf;
    var properties := r.value.properties;
    EntersOnSource(d, entering, r, SettingUp(r, instance, evaluate), e);
    forall p | p in properties ensures ValueOf(properties, instance, properties[p]) == instance[p] {}
    var f := SettingUp(r, instance, evaluate);
    forall p ensures p in ApplyProperties(f, properties, e, current.GetOr(map[])) <==> p in instance
      ensures p in instance ==> ApplyProperties(f, properties, e, current.GetOr(map[]))[p] == instance[p]
    {
      AppliedAt(f, properties, e, current.GetOr(map[]), p);
    }
    assert ApplyProperties(f, properties, e, current.GetOr(map[])) == instance;
  }

  /** A list of records of which only the one acts on the event type sets the instance up, when it holds that record. */
  lemma {:induction false} RecordsSetUp(
    d: Definition, entering: set<ContractEventType>, r: FromRecord, instance: Instance, evaluate: Evaluate, e: Event,
    from: seq<FromRecord>)
    requires SetsUp(d, entering, r) && r.value.properties.Keys == instance.Keys && e.eventType == r.key
    requires forall s :: s in from ==> s in d.from
    ensures FromStep(SettingUp(r, instance, evaluate), from, e.source, e, None)
            == if r in from then Some(instance) else None
  {
    if from != [] {
      var rest, last := from[..|from| - 1], from[|from| - 1];
      assert from == rest + [last] && last in from && forall s :: s in rest ==> s in from;
      RecordsSetUp(d, entering, r, instance, evaluate, e, rest);
      if last == r {
        SetsTheInstance(d, entering, r, instance, evaluate, e,
                        FromStep(SettingUp(r, instance, evaluate), rest, e.source, e, None));
      }
    }
  }

  lemma {:induction false} OtherJoinsRest(
    evaluate: Evaluate, variantKey: string, joins: seq<JoinRecord>, k: string, e: Event, current: Option<Instance>)
    requires forall j :: j in joins ==> j.key != e.eventType
    ensures JoinsStep(evaluate, variantKey, joins, k, e, current) == current
  {
    if joins != [] {
      OtherJoinsRest(evaluate, variantKey, joins[..|joins| - 1], k, e, current);
      assert joins[|joins| - 1] in joins;
    }
  }

  /** One event sets either form of the variant up in the instance. */
  lemma {:induction false} SetUp(
    d: Definition, entering: set<ContractEventType>, r: FromRecord, instance: Instance, evaluate: Evaluate,
    removalFirst: bool, e: Event)
    requires SetsUp(d, entering, r) && r.value.properties.Keys == instance.Keys && e.eventType == r.key
    ensures Step(SettingUp(r, instance, evaluate), removalFirst, d, e.source, e, None) == Some(instance)
    ensures Step(SettingUp(r, instance, evaluate), removalFirst, Lower(d, entering), e.source, e, None)
            == Some(instance)
  {
    var f := SettingUp(r, instance, evaluate);
    hide FromStep, JoinsStep, SettingUp;
    RecordsSetUp(d, entering, r, instance, evaluate, e, d.from);
    OtherJoinsRest(f, d.variantKey, d.join, e.source, e, Some(instance));
    LoweredUpdateOf(f, d, entering, e.source, e, None);
    assert !Removes(f, d.removedWith, e.source, e);
  }

  // ----- the events after -----

  /** Two evaluators agree on an event. */
  ghost predicate AgreeOn(f: Evaluate, g: Evaluate, e: Event) {
    forall x, previous :: f(x, e, previous) == g(x, e, previous)
  }

  lemma {:induction false} AgreeingApply(
    f: Evaluate, g: Evaluate, properties: map<string, string>, e: Event, instance: Instance)
    requires AgreeOn(f, g, e)
    ensures ApplyProperties(f, properties, e, instance) == ApplyProperties(g, properties, e, instance)
  {
  }

  lemma {:induction false} AgreeingRecords(
    f: Evaluate, g: Evaluate, from: seq<FromRecord>, k: string, e: Event, current: Option<Instance>)
    requires AgreeOn(f, g, e)
    ensures FromStep(f, from, k, e, current) == FromStep(g, from, k, e, current)
  {
    hide ApplyProperties;
    if from != [] {
      var rest := from[..|from| - 1];
      AgreeingRecords(f, g, rest, k, e, current);
      AgreeingApply(f, g, from[|from| - 1].value.properties, e, FromStep(f, rest, k, e, current).GetOr(map[]));
    }
  }

  lemma {:induction false} AgreeingJoins(
    f: Evaluate, g: Evaluate, variantKey: string, joins: seq<JoinRecord>, k: string, e: Event,
    current: Option<Instance>)
    requires AgreeOn(f, g, e)
    ensures JoinsStep(f, variantKey, joins, k, e, current) == JoinsStep(g, variantKey, joins, k, e, current)
  {
    hide ApplyProperties;
    if joins != [] {
      var rest := joins[..|joins| - 1];
      AgreeingJoins(f, g, variantKey, rest, k, e, current);
      AgreeingApply(f, g, joins[|joins| - 1].value.properties, e,
        JoinsStep(f, variantKey, rest, k, e, current).GetOr(map[]));
    }
  }

  lemma {:induction false} AgreeingUpdates(
    f: Evaluate, g: Evaluate, d: Definition, k: string, e: Event, current: Option<Instance>)
    requires AgreeOn(f, g, e)
    ensures UpdateStep(f, d, k, e, current) == UpdateStep(g, d, k, e, current)
  {
    AgreeingRecords(f, g, d.from, k, e, current);
    AgreeingJoins(f, g, d.variantKey, d.join, k, e, FromStep(f, d.from, k, e, current));
  }

  /** A run of two events whose first one sets both forms of the variant up in the instance. */
  lemma {:induction false} TwoEventRun(
    d: Definition, entering: set<ContractEventType>, r: FromRecord, instance: Instance, evaluate: Evaluate,
    removalFirst: bool, k: string, e: Event)
    requires SetsUp(d, entering, r) && r.value.properties.Keys == instance.Keys
    ensures var f, events := SettingUp(r, instance, evaluate), [Event(r.key, k, map[]), e];
            && Fold(f, removalFirst, Lower(d, entering), k, events)
               == Step(f, removalFirst, Lower(d, entering), k, e, Some(instance))
            && Gated(f, removalFirst, d, entering, k, events) == Step(f, removalFirst, d, k, e, Some(instance))
  {
    hide Step, Lower;
    var f, first := SettingUp(r, instance, evaluate), Event(r.key, k, map[]);
    SetUp(d, entering, r, instance, evaluate, removalFirst, first);
    assert [first, e][..1] == [first] && [first][..0] == [];
    assert Fold(f, removalFirst, Lower(d, entering), k, []) == None
      && Gated(f, removalFirst, d, entering, k, []) == None;
    assert Fold(f, removalFirst, Lower(d, entering), k, [first]) == Some(instance);
    assert Gated(f, removalFirst, d, entering, k, [first]) == Some(instance);
  }

  /** An update that lowering changes changes a run, when the event does not remove. */
  lemma {:induction false} ChangedUpdateChangesARun(
    d: Definition, entering: set<ContractEventType>, r: FromRecord, removalFirst: bool)
    requires SetsUp(d, entering, r) && NoUpdateRemoves(d, entering)
    requires !UpdatesPreservedOn(d, entering, r.value.properties.Keys)
    ensures !RunsPreserved(d, entering, removalFirst)
  {
    hide Fold, Gated, SetsUp, UpdateStep, SettingUp;
    var evaluate: Evaluate, k, e: Event, instance: Instance :|
      e.eventType !in entering && instance.Keys == r.value.properties.Keys
      && UpdateStep(evaluate, Lower(d, entering), k, e, Some(instance))
         != UpdateStep(evaluate, d, k, e, Some(instance));
    ChangedUpdateDoesNotRemove(d, entering, evaluate, k, e, instance);
    var f, events := SettingUp(r, instance, evaluate), [Event(r.key, k, map[]), e];
    SettingUpAgrees(d, entering, r, instance, evaluate, e);
    AgreeingUpdates(f, evaluate, d, k, e, Some(instance));
    AgreeingUpdates(f, evaluate, Lower(d, entering), k, e, Some(instance));
    TwoEventRun(d, entering, r, instance, evaluate, removalFirst, k, e);
    assert Fold(f, removalFirst, Lower(d, entering), k, events) != Gated(f, removalFirst, d, entering, k, events);
  }

  lemma {:induction false} SettingUpAgrees(
    d: Definition, entering: set<ContractEventType>, r: FromRecord, instance: Instance, evaluate: Evaluate, e: Event)
    requires SetsUp(d, entering, r) && instance.Keys == r.value.properties.Keys && e.eventType !in entering
    ensures AgreeOn(SettingUp(r, instance, evaluate), evaluate, e)
  {
  }

  lemma {:induction false} ChangedUpdateDoesNotRemove(
    d: Definition, entering: set<ContractEventType>, evaluate: Evaluate, k: string, e: Event, instance: Instance)
    requires NoUpdateRemoves(d, entering) && e.eventType !in entering
    requires UpdateStep(evaluate, Lower(d, entering), k, e, Some(instance))
             != UpdateStep(evaluate, d, k, e, Some(instance))
    ensures forall q :: q in d.removedWith ==> q.key != e.eventType
  {
    hide FromStep, JoinsStep;
    if forall s :: s in d.from ==> s.key != e.eventType {
      LoweredUpdateOf(evaluate, d, entering, k, e, Some(instance));
      FromActs(evaluate, d.from, k, e, Some(instance));
      FromActs(evaluate, d.from, k, e, JoinsStep(evaluate, d.variantKey, d.join, k, e, Some(instance)));
    }
  }

  /** An event that updates and removes ends a run of the lowered variant only, when removals act first. */
  lemma {:induction false} UpdatingRemovalChangesARun(d: Definition, entering: set<ContractEventType>, r: FromRecord)
    requires SetsUp(d, entering, r) && !NoUpdateRemoves(d, entering)
    ensures !RunsPreserved(d, entering, true)
  {
    hide Fold, Gated, SetsUp, Step, SettingUp;
    var s, q :| s in d.from && q in d.removedWith && s.key == q.key && s.key !in entering;
    var evaluate: Evaluate := (x, e, previous) => "K";
    var instance: Instance := map p | p in r.value.properties :: "";
    assert instance.Keys == r.value.properties.Keys;
    var e := Event(s.key, "K", map[]);
    var f, events := SettingUp(r, instance, evaluate), [Event(r.key, "K", map[]), e];
    SettingUpAgrees(d, entering, r, instance, evaluate, e);
    assert f(s.value.key, e, None) == evaluate(s.value.key, e, None) == "K";
    assert f(q.value.key, e, None) == evaluate(q.value.key, e, None) == "K";
    assert KeyOf(f, s.value.key, e) == "K" && KeyOf(f, q.value.key, e) == "K";
    assert Removes(f, d.removedWith, "K", e);
    RemovalFirstLosesTheUpdate(f, d, entering, "K", e, instance);
    TwoEventRun(d, entering, r, instance, evaluate, true, "K", e);
    assert Fold(f, true, Lower(d, entering), "K", events) != Gated(f, true, d, entering, "K", events);
  }

  // ----- the exact condition -----

  /**
   * For a variant that an event can set up, lowering preserves every run exactly when it is safe: with removals first,
   * when records and declared joins commute and no event both updates and removes; with removals last, and no event
   * that does both, when records and declared joins commute.
   */
  lemma {:induction false} RunsPreservedExactly(d: Definition, entering: set<ContractEventType>, r: FromRecord)
    requires RecordsAgree(d, entering) && SetsUp(d, entering, r)
    ensures RunsPreserved(d, entering, true) <==> SafeToLower(d, entering, true)
    ensures NoUpdateRemoves(d, entering) ==>
              (RunsPreserved(d, entering, false) <==> SafeToLower(d, entering, false))
  {
    hide Fold, Gated, RecordsAgree, NoUpdateRemoves, JoinsCommute;
    forall removalFirst | SafeToLower(d, entering, removalFirst) ensures RunsPreserved(d, entering, removalFirst) {
      forall evaluate: Evaluate, k, events
        ensures Fold(evaluate, removalFirst, Lower(d, entering), k, events)
             == Gated(evaluate, removalFirst, d, entering, k, events)
      {
        LoweringGates(evaluate, removalFirst, d, entering, k, events);
      }
    }
    if !NoUpdateRemoves(d, entering) {
      UpdatingRemovalChangesARun(d, entering, r);
    } else if !JoinsCommute(d, entering) {
      UncommutingJoinsChangeUpdates(d, entering, r.value.properties.Keys);
      ChangedUpdateChangesARun(d, entering, r, true);
      ChangedUpdateChangesARun(d, entering, r, false);
    }
  }

  lemma {:induction false} UncommutingJoinsChangeUpdates(
    d: Definition, entering: set<ContractEventType>, properties: set<string>)
    requires RecordsAgree(d, entering) && !JoinsCommute(d, entering) && Mentioned(d) <= properties
    ensures !UpdatesPreservedOn(d, entering, properties)
  {
    hide RecordsAgree, UpdatesPreservedOn, Mentioned, Commutes;
    var s, j :| s in d.from && j in d.join && s.key == j.key && s.key !in entering
                && !Commutes(d.variantKey, s.value, j.value);
    BrokenPairDiffers(d, entering, s, j, properties);
  }
}
