/**
 * What projection records mean, one read model key at a time: a From record creates or updates the instance its key
 * names, a Join record updates active instances only, and a RemovedWith record removes.
 */
module VariantSemantics {
  import opened Wrappers
  import opened VariantReclassifier

  datatype Event = Event(eventType: ContractEventType, source: string, content: map<string, string>)

  type Instance = map<string, string>

  /** Evaluates an expression on an event, given the value the property had. */
  type Evaluate = (string, Event, Option<string>) -> string

  datatype Definition = Definition(
    variantKey: string, from: seq<FromRecord>, join: seq<JoinRecord>, removedWith: seq<RemovedWithRecord>)

  predicate KeyedOnSource(expression: string) {
    expression == "" || expression == EVENT_SOURCE_ID_KEY
  }

  function KeyOf(evaluate: Evaluate, expression: string, e: Event): string {
    if KeyedOnSource(expression) then e.source else evaluate(expression, e, None)
  }

  /** A key names the event source when it is empty or says so, and otherwise what its expression gives on the event. */
  lemma {:induction false} KeysByExpression(evaluate: Evaluate, expression: string, e: Event)
    ensures KeyedOnSource(expression) <==> |expression| == 0 || expression == "$eventSourceId"
    ensures KeyOf(evaluate, expression, e)
         == if |expression| == 0 || expression == "$eventSourceId" then e.source else evaluate(expression, e, None)
  {
  }

  function ApplyProperties(evaluate: Evaluate, properties: map<string, string>, e: Event, instance: Instance)
    : Instance
  {
    instance + map p | p in properties :: evaluate(properties[p], e, if p in instance then Some(instance[p]) else None)
  }

  function RecordStep(evaluate: Evaluate, record: FromRecord, k: string, e: Event, current: Option<Instance>)
    : Option<Instance>
  {
    if record.key == e.eventType && KeyOf(evaluate, record.value.key, e) == k
    then Some(ApplyProperties(evaluate, record.value.properties, e, current.GetOr(map[])))
    else current
  }

  /** Every record of the event's type acts, in order: a projection may have several of one type. */
  function FromStep(evaluate: Evaluate, from: seq<FromRecord>, k: string, e: Event, current: Option<Instance>)
    : Option<Instance>
  {
    if from == [] then current
    else RecordStep(evaluate, from[|from| - 1], k, e, FromStep(evaluate, from[..|from| - 1], k, e, current))
  }

  /** A join on the variant's own key correlates by instance; any other join by the value of the property it names. */
  predicate Correlates(variantKey: string, join: JoinValue, k: string, instance: Instance, value: string) {
    if join.on == variantKey then k == value else join.on in instance && instance[join.on] == value
  }

  function JoinStep(
    evaluate: Evaluate, variantKey: string, join: JoinRecord, k: string, e: Event,
    current: Option<Instance>): Option<Instance>
  {
    if join.key == e.eventType && current.Some?
       && Correlates(variantKey, join.value, k, current.value, KeyOf(evaluate, join.value.key, e))
    then Some(ApplyProperties(evaluate, join.value.properties, e, current.value))
    else current
  }

  function JoinsStep(
    evaluate: Evaluate, variantKey: string, joins: seq<JoinRecord>, k: string, e: Event,
    current: Option<Instance>): Option<Instance>
  {
    if joins == [] then current
    else JoinStep(evaluate, variantKey, joins[|joins| - 1], k, e,
      JoinsStep(evaluate, variantKey, joins[..|joins| - 1], k, e, current))
  }

  ghost predicate Removes(evaluate: Evaluate, removedWith: seq<RemovedWithRecord>, k: string, e: Event) {
    exists r :: r in removedWith && r.key == e.eventType && KeyOf(evaluate, r.value.key, e) == k
  }

  function UpdateStep(evaluate: Evaluate, d: Definition, k: string, e: Event, current: Option<Instance>)
    : Option<Instance>
  {
    JoinsStep(evaluate, d.variantKey, d.join, k, e, FromStep(evaluate, d.from, k, e, current))
  }

  /** One event on one key. Whether a removal acts before or after the updates of the same event is left open. */
  ghost function Step(
    evaluate: Evaluate, removalFirst: bool, d: Definition, k: string, e: Event,
    current: Option<Instance>): Option<Instance>
  {
    if !Removes(evaluate, d.removedWith, k, e) then UpdateStep(evaluate, d, k, e, current)
    else if removalFirst then UpdateStep(evaluate, d, k, e, None)
    else None
  }

  ghost function Fold(evaluate: Evaluate, removalFirst: bool, d: Definition, k: string, events: seq<Event>)
    : Option<Instance>
  {
    if events == [] then None
    else Step(evaluate, removalFirst, d, k, events[|events| - 1],
      Fold(evaluate, removalFirst, d, k, events[..|events| - 1]))
  }

  // ----- when lowering is safe -----

  /** The lowered definition of a variant. */
  function Lower(d: Definition, entering: set<ContractEventType>): Definition {
    d.(from := EnteringRecords(d.from, entering), join := d.join + UpdatingJoins(d.from, entering, d.variantKey))
  }

  /**
   * A record and a declared join of its event type can change places: they set the properties they share by the same
   * expression, and the record does not write the property the join correlates on, unless the join sets nothing.
   */
  ghost predicate Commutes(variantKey: string, record: FromValue, join: JoinValue) {
    && (forall p :: p in record.properties && p in join.properties ==> record.properties[p] == join.properties[p])
    && (join.properties == map[] || join.on == variantKey || join.on !in record.properties)
  }

  ghost predicate JoinsCommute(d: Definition, entering: set<ContractEventType>) {
    forall r, j :: r in d.from && j in d.join && r.key == j.key && r.key !in entering ==>
      Commutes(d.variantKey, r.value, j.value)
  }

  /** No event type both updates the variant without entering it and removes it. */
  ghost predicate NoUpdateRemoves(d: Definition, entering: set<ContractEventType>) {
    forall r, q :: r in d.from && q in d.removedWith && r.key == q.key ==> r.key in entering
  }

  ghost predicate SafeToLower(d: Definition, entering: set<ContractEventType>, removalFirst: bool) {
    JoinsCommute(d, entering) && (removalFirst ==> NoUpdateRemoves(d, entering))
  }

  // ----- steps over lists of records -----

  lemma {:induction false} EnteringMembers(from: seq<FromRecord>, entering: set<ContractEventType>)
    ensures forall r :: r in EnteringRecords(from, entering) <==> r in from && r.key in entering
  {
    if from != [] {
      EnteringMembers(from[..|from| - 1], entering);
      assert from == from[..|from| - 1] + [from[|from| - 1]];
    }
  }

  /** The entering records do what all records do on an entering event, and nothing on any other. */
  lemma {:induction false} EnteringStep(
    evaluate: Evaluate, from: seq<FromRecord>, entering: set<ContractEventType>, k: string, e: Event,
    current: Option<Instance>)
    ensures FromStep(evaluate, EnteringRecords(from, entering), k, e, current)
            == if e.eventType in entering then FromStep(evaluate, from, k, e, current) else current
  {
    if from != [] {
      EnteringStep(evaluate, from[..|from| - 1], entering, k, e, current);
    }
  }

  lemma {:induction false} FromActs(
    evaluate: Evaluate, from: seq<FromRecord>, k: string, e: Event, current: Option<Instance>)
    ensures current.Some? ==> FromStep(evaluate, from, k, e, current).Some?
    ensures FromStep(evaluate, from, k, e, None).Some?
       <==> exists r :: r in from && r.key == e.eventType && KeyOf(evaluate, r.value.key, e) == k
    ensures (forall r :: r in from ==> r.key != e.eventType) ==> FromStep(evaluate, from, k, e, current) == current
  {
    if from != [] {
      var rest, last := from[..|from| - 1], from[|from| - 1];
      FromActs(evaluate, rest, k, e, current);
      assert from == rest + [last] && last in from;
    }
  }

  lemma {:induction false} JoinsAppend(
    evaluate: Evaluate, variantKey: string, a: seq<JoinRecord>, b: seq<JoinRecord>, k: string, e: Event,
    current: Option<Instance>)
    ensures JoinsStep(evaluate, variantKey, a + b, k, e, current)
         == JoinsStep(evaluate, variantKey, b, k, e, JoinsStep(evaluate, variantKey, a, k, e, current))
  {
    hide JoinStep;
    if b == [] {
      assert a + b == a;
    } else {
      JoinsAppend(evaluate, variantKey, a, b[..|b| - 1], k, e, current);
      assert (a + b)[..|a| + |b| - 1] == a + b[..|b| - 1];
    }
  }

  lemma {:induction false} JoinsKeepActivity(
    evaluate: Evaluate, variantKey: string, joins: seq<JoinRecord>, k: string, e: Event, current: Option<Instance>)
    ensures JoinsStep(evaluate, variantKey, joins, k, e, current).Some? <==> current.Some?
  {
    if joins != [] {
      JoinsKeepActivity(evaluate, variantKey, joins[..|joins| - 1], k, e, current);
    }
  }

  /** A record turned into a join does to an active instance what the record does, and nothing to an inactive one. */
  lemma {:induction false} RecordAsJoin(
    evaluate: Evaluate, variantKey: string, record: FromRecord, k: string, e: Event, current: Option<Instance>)
    ensures JoinStep(evaluate, variantKey, ToJoin(record, variantKey), k, e, current)
            == if current.Some? then RecordStep(evaluate, record, k, e, current) else current
  {
  }

  /**
   * The joins a variant's records become update an active instance exactly as the records did, and do nothing
   * otherwise.
   */
  lemma {:induction false} UpdatingJoinsAct(
    evaluate: Evaluate, from: seq<FromRecord>, entering: set<ContractEventType>, variantKey: string, k: string,
    e: Event, current: Option<Instance>)
    ensures JoinsStep(evaluate, variantKey, UpdatingJoins(from, entering, variantKey), k, e, current)
            == if current.Some? && e.eventType !in entering then FromStep(evaluate, from, k, e, current) else current
  {
    hide JoinStep;
    if from != [] {
      var rest, last := from[..|from| - 1], from[|from| - 1];
      UpdatingJoinsAct(evaluate, rest, entering, variantKey, k, e, current);
      FromActs(evaluate, rest, k, e, current);
      if last.key !in entering {
        var earlier := UpdatingJoins(rest, entering, variantKey);
        assert (earlier + [ToJoin(last, variantKey)])[..|earlier|] == earlier;
        RecordAsJoin(evaluate, variantKey, last, k, e, JoinsStep(evaluate, variantKey, earlier, k, e, current));
      }
    }
  }

  // ----- joins change places with records -----

  lemma {:induction false} AppliedAt(
    evaluate: Evaluate, p: map<string, string>, e: Event, instance: Instance, x: string)
    ensures x in ApplyProperties(evaluate, p, e, instance) <==> x in instance || x in p
    ensures x in p ==>
            ApplyProperties(evaluate, p, e, instance)[x]
            == evaluate(p[x], e, if x in instance then Some(instance[x]) else None)
    ensures x in instance && x !in p ==> ApplyProperties(evaluate, p, e, instance)[x] == instance[x]
  {
  }

  lemma {:induction false} ApplyBoth(
    evaluate: Evaluate, p: map<string, string>, q: map<string, string>, e: Event, instance: Instance)
    requires forall x :: x in p && x in q ==> p[x] == q[x]
    ensures ApplyProperties(evaluate, p, e, ApplyProperties(evaluate, q, e, instance))
         == ApplyProperties(evaluate, q, e, ApplyProperties(evaluate, p, e, instance))
  {
    hide ApplyProperties;
    var first, second := ApplyProperties(evaluate, q, e, instance), ApplyProperties(evaluate, p, e, instance);
    var one, other := ApplyProperties(evaluate, p, e, first), ApplyProperties(evaluate, q, e, second);
    forall x ensures x in one <==> x in other
      ensures x in one ==> one[x] == other[x]
    {
      AppliedAt(evaluate, q, e, instance, x);
      AppliedAt(evaluate, p, e, instance, x);
      AppliedAt(evaluate, p, e, first, x);
      AppliedAt(evaluate, q, e, second, x);
    }
  }

  lemma {:induction false} JoinPastRecord(
    evaluate: Evaluate, variantKey: string, join: JoinRecord, record: FromRecord, k: string, e: Event,
    instance: Instance)
    requires join.key == record.key == e.eventType ==> Commutes(variantKey, record.value, join.value)
    ensures JoinStep(evaluate, variantKey, join, k, e, RecordStep(evaluate, record, k, e, Some(instance)))
         == RecordStep(evaluate, record, k, e, JoinStep(evaluate, variantKey, join, k, e, Some(instance)))
  {
    if join.key == record.key == e.eventType && KeyOf(evaluate, record.value.key, e) == k {
      if join.value.properties == map[] {
        assert forall i: Instance :: ApplyProperties(evaluate, join.value.properties, e, i) == i;
      } else {
        ApplyBoth(evaluate, join.value.properties, record.value.properties, e, instance);
      }
    }
  }

  lemma {:induction false} JoinPastRecords(
    evaluate: Evaluate, variantKey: string, join: JoinRecord, from: seq<FromRecord>, k: string, e: Event,
    instance: Instance)
    requires forall r :: r in from && join.key == r.key == e.eventType ==> Commutes(variantKey, r.value, join.value)
    ensures JoinStep(evaluate, variantKey, join, k, e, FromStep(evaluate, from, k, e, Some(instance)))
         == FromStep(evaluate, from, k, e, JoinStep(evaluate, variantKey, join, k, e, Some(instance)))
  {
    hide JoinStep, RecordStep, Commutes;
    if from != [] {
      var rest, last := from[..|from| - 1], from[|from| - 1];
      assert forall r :: r in rest ==> r in from;
      assert last in from;
      JoinPastRecords(evaluate, variantKey, join, rest, k, e, instance);
      FromActs(evaluate, rest, k, e, Some(instance));
      JoinPastRecord(evaluate, variantKey, join, last, k, e, FromStep(evaluate, rest, k, e, Some(instance)).value);
    }
  }

  lemma {:induction false} JoinsPastRecords(
    evaluate: Evaluate, variantKey: string, joins: seq<JoinRecord>, from: seq<FromRecord>, k: string, e: Event,
    instance: Instance)
    requires forall r, j :: r in from && j in joins && r.key == j.key == e.eventType ==>
             Commutes(variantKey, r.value, j.value)
    ensures JoinsStep(evaluate, variantKey, joins, k, e, FromStep(evaluate, from, k, e, Some(instance)))
         == FromStep(evaluate, from, k, e, JoinsStep(evaluate, variantKey, joins, k, e, Some(instance)))
  {
    hide JoinStep, FromStep, Commutes;
    if joins != [] {
      var rest, last := joins[..|joins| - 1], joins[|joins| - 1];
      assert forall j :: j in rest ==> j in joins;
      assert last in joins;
      JoinsPastRecords(evaluate, variantKey, rest, from, k, e, instance);
      JoinsKeepActivity(evaluate, variantKey, rest, k, e, Some(instance));
      JoinPastRecords(evaluate, variantKey, last, from, k, e,
        JoinsStep(evaluate, variantKey, rest, k, e, Some(instance)).value);
    }
  }

  // ----- lowering preserves meaning -----

  /**
   * What lowering makes of one event: entering records as they were; on any other event the joins first, then the
   * records.
   */
  lemma {:induction false} LoweredUpdateOf(
    evaluate: Evaluate, d: Definition, entering: set<ContractEventType>, k: string, e: Event, current: Option<Instance>)
    ensures UpdateStep(evaluate, Lower(d, entering), k, e, current)
            == if e.eventType in entering then UpdateStep(evaluate, d, k, e, current)
               else if current.None? then None
               else FromStep(evaluate, d.from, k, e, JoinsStep(evaluate, d.variantKey, d.join, k, e, current))
  {
    hide FromStep, JoinsStep;
    EnteringStep(evaluate, d.from, entering, k, e, current);
    var after := FromStep(evaluate, Lower(d, entering).from, k, e, current);
    JoinsAppend(evaluate, d.variantKey, d.join, UpdatingJoins(d.from, entering, d.variantKey), k, e, after);
    JoinsKeepActivity(evaluate, d.variantKey, d.join, k, e, after);
    UpdatingJoinsAct(evaluate, d.from, entering, d.variantKey, k, e,
      JoinsStep(evaluate, d.variantKey, d.join, k, e, after));
  }

  /** What one event does to a lowered variant: as the original while active or when entering, and nothing otherwise. */
  lemma {:induction false} LoweredUpdate(
    evaluate: Evaluate, d: Definition, entering: set<ContractEventType>, k: string, e: Event, current: Option<Instance>)
    requires JoinsCommute(d, entering)
    ensures UpdateStep(evaluate, Lower(d, entering), k, e, current)
            == if current.Some? || e.eventType in entering then UpdateStep(evaluate, d, k, e, current) else None
  {
    hide Commutes, FromStep, JoinsStep;
    LoweredUpdateOf(evaluate, d, entering, k, e, current);
    if e.eventType !in entering && current.Some? {
      JoinsPastRecords(evaluate, d.variantKey, d.join, d.from, k, e, current.value);
    }
  }

  /** One step of a lowered variant, removals included. */
  lemma {:induction false} LoweredStep(
    evaluate: Evaluate, removalFirst: bool, d: Definition, entering: set<ContractEventType>, k: string, e: Event,
    current: Option<Instance>)
    requires SafeToLower(d, entering, removalFirst)
    ensures Step(evaluate, removalFirst, Lower(d, entering), k, e, current)
            == if current.Some? || e.eventType in entering then Step(evaluate, removalFirst, d, k, e, current) else None
  {
    hide JoinsCommute, FromStep, JoinsStep;
    LoweredUpdate(evaluate, d, entering, k, e, current);
    LoweredUpdate(evaluate, d, entering, k, e, None);
    if removalFirst && e.eventType !in entering && Removes(evaluate, d.removedWith, k, e) {
      FromActs(evaluate, d.from, k, e, None);
      JoinsKeepActivity(evaluate, d.variantKey, d.join, k, e, FromStep(evaluate, d.from, k, e, None));
    }
  }

  /** Folding from a point on, from nothing. */
  ghost function FoldSince(
    evaluate: Evaluate, removalFirst: bool, d: Definition, k: string, events: seq<Event>, start: nat): Option<Instance>
    requires start <= |events|
  {
    Fold(evaluate, removalFirst, d, k, events[start..])
  }

  /**
   * Lowering preserves meaning over every run: an instance that is active was last entered by an entering event, has
   * been active ever since, and is what folding the original records over the events since then gives.
   */
  lemma {:induction false} LoweringPreservesMeaning(
    evaluate: Evaluate, removalFirst: bool, d: Definition, entering: set<ContractEventType>, k: string,
    events: seq<Event>)
    returns (start: nat)
    requires SafeToLower(d, entering, removalFirst)
    ensures start <= |events|
    ensures Fold(evaluate, removalFirst, Lower(d, entering), k, events).None? ==> start == |events|
    ensures Fold(evaluate, removalFirst, Lower(d, entering), k, events).Some? ==>
              && start < |events| && events[start].eventType in entering
              && Fold(evaluate, removalFirst, Lower(d, entering), k, events[..start]).None?
              && (forall n :: start < n <= |events| ==>
                 Fold(evaluate, removalFirst, Lower(d, entering), k, events[..n]).Some?)
              && FoldSince(evaluate, removalFirst, d, k, events, start)
                 == Fold(evaluate, removalFirst, Lower(d, entering), k, events)
  {
    hide Step, Lower, SafeToLower;
    start := |events|;
    if events != [] {
      var n := |events| - 1;
      var rest, e := events[..n], events[n];
      var before := Fold(evaluate, removalFirst, Lower(d, entering), k, rest);
      var earlier := LoweringPreservesMeaning(evaluate, removalFirst, d, entering, k, rest);
      LoweredStep(evaluate, removalFirst, d, entering, k, e, before);
      if Fold(evaluate, removalFirst, Lower(d, entering), k, events).Some? {
        if before.Some? {
          start := earlier;
          var since := events[start..];
          assert since[|since| - 1] == e && since[..|since| - 1] == rest[start..];
          assert FoldSince(evaluate, removalFirst, d, k, events, start)
            == Step(evaluate, removalFirst, d, k, e, before);
          assert rest[..start] == events[..start];
          forall m | start < m <= |events|
            ensures Fold(evaluate, removalFirst, Lower(d, entering), k, events[..m]).Some?
          {
            if m <= n {
              assert events[..m] == rest[..m];
            } else {
              assert events[..m] == events;
            }
          }
        } else {
          start := n;
          assert events[n..] == [e] && [e][..0] == [];
          assert Fold(evaluate, removalFirst, d, k, [e]) == Step(evaluate, removalFirst, d, k, e, None);
          assert events[..|events|] == events;
        }
      }
    }
  }
}
